/** How the invariants follow the larger steps of the mark phase (src/lgc.c). */
module GcSteps {
  import opened LuaValues
  import opened GcHeap
  import opened GcState
  import opened GcMarking

  /** The values on the stack of a thread have been marked; in the atomic step the
      thread is done with and back on the list of those with open upvalues. */
  lemma ThreadTraversed(s1: Snap, s2: Snap, o: Ref, again: seq<Ref>, done: seq<Ref>, waiting: set<Ref>)
    requires IsThread(HeapOf(s1), o) && o in s1.marked && s1.marked[o].Gray?
    requires Marking(s1, [o] + again, done, waiting, s1.gcstate.InsideAtomic?)
    requires s2 == s1.(marked := s2.marked, gray := s2.gray, twups := s2.twups)
    requires Grown(s1.objs, s1.marked, s1.gray, s2.marked, s2.gray) && AllIn(s1.objs[o].stack, NonWhite(s2.marked))
    requires s2.twups == if s1.gcstate.InsideAtomic? && s1.objs[o].openupval != [] && o !in s1.twups then [o] + s1.twups
                         else s1.twups
    ensures if s1.gcstate.InsideAtomic? then Marking(s2, again, [o] + done, waiting, true)
            else Marking(s2, [o] + again, done, waiting, false)
  {
    var atomic, s := s1.gcstate.InsideAtomic?, s1.(marked := s2.marked, gray := s2.gray);
    assert TriColor(s2, [o] + again, done, waiting, atomic, {}) by {
      GrownTri(s1, s, [o] + again, done, waiting, atomic, {});
      MoreTwups(s, s2, [o] + again, done, waiting, atomic);
    }
    ThreadGraph(s1, s2, o, waiting, atomic);
    if atomic { NowDone(s2, o, again, done, waiting); }
  }

  lemma ThreadGraph(s1: Snap, s2: Snap, o: Ref, waiting: set<Ref>, atomic: bool)
    requires IsThread(HeapOf(s1), o) && o in s1.marked && s1.marked[o].Gray? && Graph(s1, waiting, atomic)
    requires s2 == s1.(marked := s2.marked, gray := s2.gray, twups := s2.twups)
    requires Grown(s1.objs, s1.marked, s1.gray, s2.marked, s2.gray)
    requires s2.twups == s1.twups || s2.twups == [o] + s1.twups
    ensures Graph(s2, waiting, atomic)
  {
    GrownWhites(s1.objs, s1.marked, s1.gray, s2.marked, s2.gray);
    assert o in NonWhite(s1.marked);
    forall x | x in s2.fixedgc ensures s2.marked[x].Gray? {
      assert GrownAt(s1.objs, s1.marked, s2.marked, x);
    }
  }

  lemma MoreTwups(s: Snap, s': Snap, again: seq<Ref>, done: seq<Ref>, waiting: set<Ref>, atomic: bool)
    requires TriColor(s, again, done, waiting, atomic, {}) && s' == s.(twups := s'.twups) &&
             ToSet(s.twups) <= ToSet(s'.twups)
    ensures TriColor(s', again, done, waiting, atomic, {})
  {
    BlacksKept(s, s', waiting, atomic, {});
    DonesKept(s, s', done);
    forall x | x in s'.marked ensures ColorOk(s', x) {
      assert ColorOk(s, x);
    }
  }

  lemma NowDone(s: Snap, o: Ref, again: seq<Ref>, done: seq<Ref>, waiting: set<Ref>)
    requires TriColor(s, [o] + again, done, waiting, true, {}) && DoneOk(s, o)
    ensures TriColor(s, again, [o] + done, waiting, true, {})
  {
    forall x ensures OnLists(s.gray, again, [o] + done, x) == Count(MustBeListed(s.marked, s.fixedgc, x)) {
      assert OnLists(s.gray, [o] + again, done, x) == Count(MustBeListed(s.marked, s.fixedgc, x));
    }
  }

  /** The head of the gray list leaves it and turns black. */
  function PopObject(s: Snap): Snap
    requires s.gray != []
  {
    s.(marked := s.marked[s.gray[0] := Black], gray := s.gray[1..])
  }

  lemma ObjectPopped(s: Snap, again: seq<Ref>, done: seq<Ref>, waiting: set<Ref>, atomic: bool)
    requires Marking(s, again, done, waiting, atomic) && s.gray != [] && !IsThread(HeapOf(s), s.gray[0])
    ensures TriColor(PopObject(s), again, done, waiting, atomic, {s.gray[0]}) && Graph(PopObject(s), waiting, atomic)
    ensures s.gray[0] in s.objs && s.gray[0] in s.marked && s.marked[s.gray[0]].Gray? && IsTraversed(s.objs[s.gray[0]])
    ensures s.gray[0] !in s.fixedgc
  {
    HeadIsGray(s, again, done, waiting, atomic);
    PoppedTri(s, PopObject(s), again, done, waiting, atomic);
  }

  /** An object that is no thread has been traversed. */
  lemma ObjectTraversed(s1: Snap, s2: Snap, o: Ref, again: seq<Ref>, done: seq<Ref>, waiting: set<Ref>)
    requires o in s1.objs && !s1.objs[o].Thread? && TriColor(s1, again, done, waiting, s1.gcstate.InsideAtomic?, {o})
    requires Graph(s1, waiting, s1.gcstate.InsideAtomic?)
    requires s2 == s1.(objs := s2.objs, ups := s2.ups, marked := s2.marked, gray := s2.gray)
    requires CacheMayGo(s1.objs, s2.objs, o) && TouchedMore(s1.ups, s2.ups)
    requires Grown(s2.objs, s1.marked, s1.gray, s2.marked, s2.gray) && ClosedSet(HeapOf(s2), s2.objs.Keys)
    requires BlackOk(HeapOf(s2), s2.marked, s2.objs[o], waiting, s1.gcstate.InsideAtomic?)
    ensures Marking(s2, again, done, waiting, s1.gcstate.InsideAtomic?)
  {
    var atomic := s1.gcstate.InsideAtomic?;
    assert TriColor(s2, again, done, waiting, atomic, {o}) by {
      ObjectTri(s1, s2, o, again, done, waiting, atomic);
    }
    BlackAgain(s2, o, again, done, waiting, atomic);
    ObjectGraph(s1, s2, o, waiting, atomic);
  }

  lemma ObjectTri(s1: Snap, s2: Snap, o: Ref, again: seq<Ref>, done: seq<Ref>, waiting: set<Ref>, atomic: bool)
    requires o in s1.objs && !s1.objs[o].Thread? && TriColor(s1, again, done, waiting, atomic, {o})
    requires Graph(s1, waiting, atomic)
    requires s2 == s1.(objs := s2.objs, ups := s2.ups, marked := s2.marked, gray := s2.gray)
    requires CacheMayGo(s1.objs, s2.objs, o) && TouchedMore(s1.ups, s2.ups)
    requires Grown(s2.objs, s1.marked, s1.gray, s2.marked, s2.gray)
    ensures TriColor(s2, again, done, waiting, atomic, {o})
  {
    var a := s1.(objs := s2.objs, ups := s2.ups);
    assert TriColor(a, again, done, waiting, atomic, {o}) by {
      TouchedTri(s1, a, o, again, done, waiting, atomic);
    }
    assert FixedOk(a);
    GrownTri(a, s2, again, done, waiting, atomic, {o});
  }

  lemma ObjectGraph(s1: Snap, s2: Snap, o: Ref, waiting: set<Ref>, atomic: bool)
    requires Graph(s1, waiting, atomic)
    requires s2 == s1.(objs := s2.objs, ups := s2.ups, marked := s2.marked, gray := s2.gray)
    requires CacheMayGo(s1.objs, s2.objs, o) && TouchedMore(s1.ups, s2.ups)
    requires Grown(s2.objs, s1.marked, s1.gray, s2.marked, s2.gray) && ClosedSet(HeapOf(s2), s2.objs.Keys)
    ensures Graph(s2, waiting, atomic)
  {
    GrownWhites(s2.objs, s1.marked, s1.gray, s2.marked, s2.gray);
    TraversedUpvalues(HeapOf(s1), HeapOf(s2), o);
    forall x | x in s2.fixedgc ensures s2.marked[x].Gray? {
      assert GrownAt(s2.objs, s1.marked, s2.marked, x);
    }
  }

  lemma TraversedUpvalues(h: Heap, h': Heap, o: Ref)
    requires UpvaluesOk(h) && CacheMayGo(h.objs, h'.objs, o) && TouchedMore(h.ups, h'.ups)
    ensures UpvaluesOk(h')
  {
    forall th | IsThread(h', th) ensures ThreadOk(h', th) {
      assert ThreadOk(h, th);
    }
    forall u | u in h'.ups && h'.ups[u].Open? ensures OpenUpOk(h', u) {
      assert OpenUpOk(h, u);
    }
    forall a | a in h'.objs ensures ClosureOk(h', h'.objs[a]) {
      assert ClosureOk(h, h.objs[a]);
    }
  }

  lemma AdvancedThread(s: Snap, s1: Snap, s2: Snap, o: Ref)
    requires s.gray != [] && s1 == s.(gray := s.gray[1..], grayagain := [o] + s.grayagain)
    requires s2 == s1.(marked := s2.marked, gray := s2.gray, twups := s2.twups)
    requires Grown(s1.objs, s1.marked, s1.gray, s2.marked, s2.gray)
    requires ToSet(s1.twups) <= ToSet(s2.twups) && (!s.gcstate.InsideAtomic? ==> s2.twups == s.twups)
    requires o in s.marked && s.marked[o].Gray? && o !in s.fixedgc
    requires OnlyMarks(HeapOf(s), s.marked, s2.marked, [Some(o)])
    ensures Advanced(s, s2) && Remaining(s2) < Remaining(s) && Confined(s, s2, {})
  {
    ConfinedStep(s, s2, o, s.marked);
    GrownWhites(s1.objs, s1.marked, s1.gray, s2.marked, s2.gray);
    GrownRemaining(s1.objs, s1.marked, s1.gray, s2.marked, s2.gray);
  }

  lemma AdvancedObject(s: Snap, s1: Snap, s2: Snap, o: Ref)
    requires s.gray != [] && o == s.gray[0] && o in s.marked && s.marked[o].Gray?
    requires s1 == s.(marked := s.marked[o := Black], gray := s.gray[1..])
    requires s2 == s1.(objs := s2.objs, ups := s2.ups, marked := s2.marked, gray := s2.gray)
    requires CacheMayGo(s1.objs, s2.objs, o) && TouchedMore(s1.ups, s2.ups)
    requires Grown(s2.objs, s1.marked, s1.gray, s2.marked, s2.gray)
    ensures Advanced(s, s2) && Remaining(s2) < Remaining(s)
  {
    GrownWhites(s2.objs, s1.marked, s1.gray, s2.marked, s2.gray);
    GrownRemaining(s2.objs, s1.marked, s1.gray, s2.marked, s2.gray);
    assert Whites(s1.marked) == Whites(s.marked);
  }

  lemma ObjectStep(s: Snap, s2: Snap, again: seq<Ref>, done: seq<Ref>, waiting: set<Ref>)
    requires s.gray != [] && s.gray[0] in s.objs && s.gray[0] in s.marked && s.marked[s.gray[0]].Gray?
    requires !s.objs[s.gray[0]].Thread? && Graph(PopObject(s), waiting, s.gcstate.InsideAtomic?)
    requires TriColor(PopObject(s), again, done, waiting, s.gcstate.InsideAtomic?, {s.gray[0]})
    requires s2 == PopObject(s).(objs := s2.objs, ups := s2.ups, marked := s2.marked, gray := s2.gray)
    requires CacheMayGo(s.objs, s2.objs, s.gray[0]) && TouchedMore(s.ups, s2.ups)
    requires Grown(s2.objs, PopObject(s).marked, PopObject(s).gray, s2.marked, s2.gray)
    requires ClosedSet(HeapOf(s2), s2.objs.Keys)
    requires BlackOk(HeapOf(s2), s2.marked, s2.objs[s.gray[0]], waiting, s.gcstate.InsideAtomic?)
    requires s.gray[0] !in s.fixedgc && OnlyMarks(HeapOf(s), PopObject(s).marked, s2.marked, [Some(s.gray[0])])
    ensures Marking(s2, again, done, waiting, s.gcstate.InsideAtomic?) && Advanced(s, s2) &&
            Remaining(s2) < Remaining(s)
    ensures Confined(s, s2, {})
  {
    ObjectTraversed(PopObject(s), s2, s.gray[0], again, done, waiting);
    AdvancedObject(s, PopObject(s), s2, s.gray[0]);
    AdvancedStrong(s, s2);
    ConfinedStep(s, s2, s.gray[0], PopObject(s).marked);
  }
}
