/** The incremental collector (src/lgc.c): an object graph, its marks and lists,
    and the state machine that works on them between the actions of the program. */
module Collector {
  import opened LuaValues
  import opened GcHeap
  import opened GcState
  import opened GcMarking
  import opened GcSteps
  import opened GcAtomic
  import opened GcSweeping
  import opened GcGarbage

  class GlobalState {
    var objs: map<Ref, Obj>
    var ups: map<Up, UpVal>
    var marked: Marks
    var currentwhite: Color
    var gcstate: Phase
    var allgc: seq<Ref>
    var fixedgc: seq<Ref>
    var gray: seq<Ref>
    var grayagain: seq<Ref>
    var twups: seq<Ref>
    var sweepgc: Option<nat>
    var mainthread: Ref
    var running: Ref
    var registry: Ptr
    var mt: seq<Ptr>

    ghost function Now(): Snap
      reads this
    {
      Snap(objs, ups, marked, currentwhite, gcstate, allgc, fixedgc, gray, grayagain, twups, sweepgc,
           mainthread, running, registry, mt)
    }

    /** A new state with nothing but its main thread (lua_newstate); there are `n`
        basic types. */
    constructor (main: Ref, n: nat)
      ensures Inv(Now()) && gcstate.Pause? && mainthread == main && running == main && allgc == []
      ensures objs == map[main := Thread([], [])] && ups == map[] && registry == None && |mt| == n
    {
      objs, ups, marked, currentwhite := map[main := Thread([], [])], map[], map[main := White0], White0;
      gcstate, allgc, fixedgc, gray, grayagain, twups, sweepgc := Pause, [], [], [], [], [], None;
      mainthread, running, registry, mt := main, main, None, seq(n, _ => None);
      new;
      NewState(Now());
    }

    /** luaC_fix: the newest object is never collected; only strings are fixed, while
        the state is being built. */
    method Fix(o: Ref)
      requires Inv(Now()) && gcstate.Pause? && allgc != [] && allgc[0] == o && o in objs && objs[o].Str?
      modifies this`marked, this`allgc, this`fixedgc
      ensures Inv(Now()) && fixedgc == [o] + old(fixedgc) && allgc == old(allgc)[1..] && o in Live(Now())
    {
      ghost var s := Now();
      marked := marked[o := Gray];
      allgc := allgc[1..];
      fixedgc := [o] + fixedgc;
      ObjectFixed(s, Now());
    }

    /** The state with the sweep at position `p`. */
    ghost function SweepAt(p: Option<nat>): Snap
      reads this
    {
      Now().(sweepgc := p)
    }

    // ---- Marking ----

    /** Objects can be marked: all references lead to objects. */
    ghost predicate CanMark()
      reads this`objs, this`ups, this`marked
    {
      marked.Keys == objs.Keys && ClosedSet(Heap(objs, ups), objs.Keys)
    }

    /** reallymarkobject */
    method ReallyMark(o: Ref)
      requires CanMark() && o in objs && IsWhite(marked[o])
      modifies this`marked, this`gray
      ensures Grown(objs, old(marked), old(gray), marked, gray) && marked.Keys == objs.Keys && !IsWhite(marked[o])
      ensures OnlyMarks(Heap(objs, ups), old(marked), marked, [Some(o)])
      decreases |Whites(marked)|, 1
    {
      ghost var m, g := marked, gray;
      if objs[o].Udata? {
        MarkUdata(o);
      } else if objs[o].Str? {
        marked := marked[o := Gray];
        marked := marked[o := Black];
        StringMarked(objs, m, g, o);
        assert marked == m[o := Black];
        OneMarked(Heap(objs, ups), m, marked, o);
      } else {
        marked := marked[o := Gray];
        gray := [o] + gray;
        TraversedMarked(objs, m, g, o);
        OneMarked(Heap(objs, ups), m, marked, o);
      }
    }

    /** The case of a userdata: where the C code jumps back to its start with the
        user value there is a call. */
    method MarkUdata(o: Ref)
      requires CanMark() && o in objs && IsWhite(marked[o]) && objs[o].Udata?
      modifies this`marked, this`gray
      ensures Grown(objs, old(marked), old(gray), marked, gray) && marked.Keys == objs.Keys && !IsWhite(marked[o])
      ensures OnlyMarks(Heap(objs, ups), old(marked), marked, [Some(o)])
      decreases |Whites(marked)|, 0
    {
      ghost var m, g := marked, gray;
      UdataPointers(Heap(objs, ups), o, objs.Keys);
      FewerWhites(m, m[o := Gray], o);
      marked := marked[o := Gray];
      MarkPtr(objs[o].metatable);
      ghost var m1, g1 := marked, gray;
      GrownWhites(objs, m[o := Gray], g, m1, g1);
      marked := marked[o := Black];
      FewerWhites(m, marked, o);
      MarkPtr(objs[o].user);
      UdataMarked(objs, m, g, o, m1, g1, marked, gray);
      UdataOnly(Heap(objs, ups), o, m, m1, marked);
    }

    /** markvalue, markobject, markobjectN */
    method MarkPtr(p: Ptr)
      requires CanMark() && PtrIn(p, objs.Keys)
      modifies this`marked, this`gray
      ensures Grown(objs, old(marked), old(gray), marked, gray) && marked.Keys == objs.Keys
      ensures PtrIn(p, NonWhite(marked)) && OnlyMarks(Heap(objs, ups), old(marked), marked, [p])
      decreases |Whites(marked)|, 2
    {
      if p.Some? && IsWhite(marked[p.value]) {
        ReallyMark(p.value);
      } else {
        NothingGrown(objs, marked, gray);
        NothingMarked(Heap(objs, ups), marked, [p]);
      }
    }

    /** The loops that mark an array of values. */
    method MarkValues(ps: seq<Ptr>)
      requires CanMark() && AllIn(ps, objs.Keys)
      modifies this`marked, this`gray
      ensures Grown(objs, old(marked), old(gray), marked, gray) && marked.Keys == objs.Keys
      ensures AllIn(ps, NonWhite(marked)) && OnlyMarks(Heap(objs, ups), old(marked), marked, ps)
    {
      ghost var m, g := marked, gray;
      NothingGrown(objs, m, g);
      NothingMarked(Heap(objs, ups), m, ps);
      var i := 0;
      while i < |ps|
        invariant 0 <= i <= |ps| && Grown(objs, m, g, marked, gray) && marked.Keys == objs.Keys
        invariant AllIn(ps[..i], NonWhite(marked)) && OnlyMarks(Heap(objs, ups), m, marked, ps)
      {
        ghost var m1, g1 := marked, gray;
        assert PtrIn(ps[i], objs.Keys);
        MarkPtr(ps[i]);
        GrownTransitive(objs, m, g, m1, g1, marked, gray);
        GrownWhites(objs, m1, g1, marked, gray);
        AllInMore(ps[..i], NonWhite(m1), NonWhite(marked));
        AllInOneMore(ps, i, NonWhite(marked));
        OnlyMarksTransitive(Heap(objs, ups), Heap(objs, ups), m, m1, marked, ps, [ps[i]], ps);
        i := i + 1;
      }
      assert ps[..i] == ps;
    }

    // ---- Traversing ----

    /** One upvalue of a closure: outside the atomic step the value of an open one is
        left to the thread it lives in. */
    method VisitUpvalue(u: Up, ghost waiting: set<Ref>)
      requires CanMark() && u in ups && PtrIn(UpValue(Heap(objs, ups), u), objs.Keys)
      requires ups[u].Open? && !gcstate.InsideAtomic? ==> ups[u].thread in waiting
      modifies this`marked, this`gray, this`ups
      ensures Grown(objs, old(marked), old(gray), marked, gray) && CanMark() && TouchedMore(old(ups), ups)
      ensures UpBlackOk(Heap(objs, ups), marked, u, waiting, gcstate.InsideAtomic?)
      ensures OnlyMarks(old(Heap(objs, ups)), old(marked), marked, [old(UpValue(Heap(objs, ups), u))])
    {
      if ups[u].Open? && !gcstate.InsideAtomic? {
        ghost var h := Heap(objs, ups);
        NothingMarked(h, marked, [UpValue(h, u)]);
        ups := ups[u := ups[u].(touched := true)];
        NothingGrown(objs, marked, gray);
        TouchedClosed(h, Heap(objs, ups), objs.Keys);
      } else {
        MarkPtr(UpValue(Heap(objs, ups), u));
      }
    }

    /** traverseLclosure */
    method TraverseLClosure(o: Ref, ghost waiting: set<Ref>)
      requires CanMark() && o in objs && objs[o].LClosure? && UpvaluesOk(Heap(objs, ups))
      requires !gcstate.InsideAtomic? ==> Covers(Heap(objs, ups), waiting)
      modifies this`marked, this`gray, this`ups
      ensures Grown(objs, old(marked), old(gray), marked, gray) && CanMark() && TouchedMore(old(ups), ups)
      ensures BlackOk(Heap(objs, ups), marked, objs[o], waiting, gcstate.InsideAtomic?)
      ensures PtrIn(objs[o].proto, NonWhite(marked))
      ensures OnlyMarks(old(Heap(objs, ups)), old(marked), marked, [Some(o)])
    {
      ghost var m, g, h := marked, gray, Heap(objs, ups);
      assert StaysIn(Heap(objs, ups), o, objs.Keys);
      assert Direct(objs[o]) == [objs[o].proto] && PtrIn(Direct(objs[o])[0], objs.Keys);
      MarkPtr(objs[o].proto);
      ghost var m1, g1 := marked, gray;
      OnlyFromObject(h, o, m, m1, Direct(objs[o]));
      NothingMarked(h, m1, [Some(o)]);
      VisitUpvalues(o, objs[o].upvals, waiting);
      OnlyMarksTransitive(h, h, m, m1, marked, [Some(o)], [Some(o)], [Some(o)]);
      GrownTransitive(objs, m, g, m1, g1, marked, gray);
      GrownWhites(objs, m1, g1, marked, gray);
      AllInMore(Direct(objs[o]), NonWhite(m1), NonWhite(marked));
    }

    method VisitUpvalues(o: Ref, us: seq<Up>, ghost waiting: set<Ref>)
      requires CanMark() && o in objs && objs[o].LClosure? && us == objs[o].upvals && UpvaluesOk(Heap(objs, ups))
      requires !gcstate.InsideAtomic? ==> Covers(Heap(objs, ups), waiting)
      modifies this`marked, this`gray, this`ups
      ensures Grown(objs, old(marked), old(gray), marked, gray) && CanMark() && TouchedMore(old(ups), ups)
      ensures UpsBlackOk(Heap(objs, ups), marked, us, waiting, gcstate.InsideAtomic?)
      ensures OnlyMarks(old(Heap(objs, ups)), old(marked), marked, [Some(o)])
    {
      ghost var m, g, h, atomic := marked, gray, Heap(objs, ups), gcstate.InsideAtomic?;
      NothingGrown(objs, m, g);
      NothingMarked(h, m, [Some(o)]);
      var i := 0;
      while i < |us|
        invariant 0 <= i <= |us| && Grown(objs, m, g, marked, gray) && CanMark() && TouchedMore(h.ups, ups)
        invariant UpsBlackOk(Heap(objs, ups), marked, us[..i], waiting, atomic)
        invariant OnlyMarks(h, m, marked, [Some(o)])
      {
        ghost var m1, g1, h1 := marked, gray, Heap(objs, ups);
        UpvalueIn(h, h1, o, us, i, waiting, atomic);
        VisitUpvalue(us[i], waiting);
        VisitOnly(h, h1, o, us, i, m, m1, marked);
        VisitStep(h, m, g, h1, m1, g1, Heap(objs, ups), marked, gray, us, i, waiting, atomic);
        i := i + 1;
      }
      assert us[..i] == us;
    }

    /** traverseproto: a cached closure that is not marked is forgotten. */
    method TraverseProto(o: Ref)
      requires CanMark() && o in objs && objs[o].Proto? && UpvaluesOk(Heap(objs, ups))
      modifies this`marked, this`gray, this`objs
      ensures CacheMayGo(old(objs), objs, o) && CanMark()
      ensures Grown(objs, old(marked), old(gray), marked, gray)
      ensures AllIn(objs[o].parts, NonWhite(marked)) && PtrIn(objs[o].cache, NonWhite(marked))
      ensures OnlyMarks(old(Heap(objs, ups)), old(marked), marked, [Some(o)])
    {
      ghost var h := Heap(objs, ups);
      ForgetCache(o);
      assert StaysIn(Heap(objs, ups), o, objs.Keys);
      ghost var m, g := marked, gray;
      MarkValues(objs[o].parts);
      GrownWhites(objs, m, g, marked, gray);
      ProtoOnly(h, Heap(objs, ups), o, m, marked);
    }

    method ForgetCache(o: Ref)
      requires CanMark() && o in objs && objs[o].Proto? && UpvaluesOk(Heap(objs, ups))
      modifies this`objs
      ensures CacheMayGo(old(objs), objs, o) && CanMark() && PtrIn(CacheOf(objs[o]), NonWhite(marked))
    {
      assert StaysIn(Heap(objs, ups), o, objs.Keys);
      if objs[o].cache.Some? && IsWhite(marked[objs[o].cache.value]) {
        ghost var h := Heap(objs, ups);
        objs := objs[o := objs[o].(cache := None)];
        CacheCleared(h, Heap(objs, ups), o);
      }
    }

    /** traversethread: in the atomic step the thread goes back to the list of
        threads with open upvalues if it is not there. */
    method TraverseThread(o: Ref)
      requires CanMark() && o in objs && objs[o].Thread?
      modifies this`marked, this`gray, this`twups
      ensures Grown(objs, old(marked), old(gray), marked, gray) && CanMark()
      ensures AllIn(objs[o].stack, NonWhite(marked)) && OnlyMarks(Heap(objs, ups), old(marked), marked, [Some(o)])
      ensures twups == if gcstate.InsideAtomic? && objs[o].openupval != [] && o !in old(twups) then [o] + old(twups)
                       else old(twups)
    {
      assert StaysIn(Heap(objs, ups), o, objs.Keys);
      MarkValues(objs[o].stack);
      OnlyFromObject(Heap(objs, ups), o, old(marked), marked, objs[o].stack);
      if gcstate.InsideAtomic? {
        if o !in twups && objs[o].openupval != [] {
          twups := [o] + twups;
        }
      }
    }

    /** traversetable, traversestrongtable */
    method TraverseTable(o: Ref)
      requires CanMark() && o in objs && objs[o].Table?
      modifies this`marked, this`gray
      ensures Grown(objs, old(marked), old(gray), marked, gray) && CanMark()
      ensures PtrIn(objs[o].metatable, NonWhite(marked)) && AllIn(objs[o].slots, NonWhite(marked))
      ensures OnlyMarks(Heap(objs, ups), old(marked), marked, [Some(o)])
    {
      ghost var m, g, h := marked, gray, Heap(objs, ups);
      assert StaysIn(h, o, objs.Keys);
      ghost var mt, slots, ps := objs[o].metatable, objs[o].slots, Direct(objs[o]);
      TablePointers(mt, slots, objs.Keys);
      MarkPtr(objs[o].metatable);
      ghost var m1, g1 := marked, gray;
      MarkValues(objs[o].slots);
      GrownTransitive(objs, m, g, m1, g1, marked, gray);
      GrownWhites(objs, m1, g1, marked, gray);
      assert forall p :: p in [mt] || p in slots ==> p in ps;
      OnlyMarksTransitive(h, h, m, m1, marked, [mt], slots, ps);
      OnlyFromObject(h, o, m, marked, ps);
    }

    /** The traversal of a gray object that is no thread. */
    method Traverse(o: Ref, ghost waiting: set<Ref>)
      requires CanMark() && o in objs && IsTraversed(objs[o]) && !objs[o].Thread? && UpvaluesOk(Heap(objs, ups))
      requires !gcstate.InsideAtomic? ==> Covers(Heap(objs, ups), waiting)
      modifies this`marked, this`gray, this`ups, this`objs
      ensures CacheMayGo(old(objs), objs, o) && TouchedMore(old(ups), ups) && CanMark()
      ensures Grown(objs, old(marked), old(gray), marked, gray)
      ensures BlackOk(Heap(objs, ups), marked, objs[o], waiting, gcstate.InsideAtomic?)
      ensures OnlyMarks(old(Heap(objs, ups)), old(marked), marked, [Some(o)])
    {
      if objs[o].Table? {
        TraverseTable(o);
        TablePointers(objs[o].metatable, objs[o].slots, NonWhite(marked));
      } else if objs[o].CClosure? {
        assert StaysIn(Heap(objs, ups), o, objs.Keys);
        MarkValues(objs[o].values);
        OnlyFromObject(Heap(objs, ups), o, old(marked), marked, objs[o].values);
      } else if objs[o].LClosure? {
        TraverseLClosure(o, waiting);
      } else {
        TraverseProto(o);
      }
    }

    /** propagatemark. `again` are the objects to be visited again, `done` the
        threads that the atomic step has visited, `waiting` the threads whose
        touched upvalues will be. */
    method PropagateMark(ghost again: seq<Ref>, ghost done: seq<Ref>, ghost waiting: set<Ref>)
      returns (ghost again': seq<Ref>, ghost done': seq<Ref>)
      requires Marking(Now(), again, done, waiting, gcstate.InsideAtomic?) && gray != []
      modifies this`marked, this`gray, this`grayagain, this`ups, this`objs, this`twups
      ensures Marking(Now(), again', done', waiting, gcstate.InsideAtomic?) && Advanced(old(Now()), Now())
      ensures Remaining(Now()) < old(Remaining(Now())) && Confined(old(Now()), Now(), {})
      ensures grayagain == old(HeadThread(Now())) + old(grayagain)
      ensures if gcstate.InsideAtomic? then again' == again && done' == old(HeadThread(Now())) + done
              else again' == old(HeadThread(Now())) + again && done' == done
    {
      HeadIsGray(Now(), again, done, waiting, gcstate.InsideAtomic?);
      if objs[gray[0]].Thread? {
        again', done' := PropagateThread(again, done, waiting);
      } else {
        PropagateObject(again, done, waiting);
        again', done' := again, done;
      }
    }

    /** Threads are never black: they are visited again. */
    method PropagateThread(ghost again: seq<Ref>, ghost done: seq<Ref>, ghost waiting: set<Ref>)
      returns (ghost again': seq<Ref>, ghost done': seq<Ref>)
      requires Marking(Now(), again, done, waiting, gcstate.InsideAtomic?) && gray != [] &&
               IsThread(HeapOf(Now()), gray[0])
      modifies this`marked, this`gray, this`grayagain, this`twups
      ensures Marking(Now(), again', done', waiting, gcstate.InsideAtomic?) && Advanced(old(Now()), Now())
      ensures Remaining(Now()) < old(Remaining(Now())) && grayagain == [old(gray[0])] + old(grayagain)
      ensures Confined(old(Now()), Now(), {})
      ensures if gcstate.InsideAtomic? then again' == again && done' == [old(gray[0])] + done
              else again' == [old(gray[0])] + again && done' == done
    {
      ghost var s := Now();
      HeadIsGray(s, again, done, waiting, gcstate.InsideAtomic?);
      var o := gray[0];
      marked := marked[o := Black];
      gray := gray[1..];
      grayagain := [o] + grayagain;
      marked := marked[o := Gray];
      assert s.marked[o := Black][o := Gray] == s.marked;
      ghost var s1 := Now();
      ThreadPopped(s, s1, again, done, waiting, gcstate.InsideAtomic?);
      TraverseThread(o);
      ThreadTraversed(s1, Now(), o, again, done, waiting);
      again' := if gcstate.InsideAtomic? then again else [o] + again;
      done' := if gcstate.InsideAtomic? then [o] + done else done;
      AdvancedThread(s, s1, Now(), o);
    }

    method PropagateObject(ghost again: seq<Ref>, ghost done: seq<Ref>, ghost waiting: set<Ref>)
      requires Marking(Now(), again, done, waiting, gcstate.InsideAtomic?) && gray != [] &&
               !IsThread(HeapOf(Now()), gray[0])
      modifies this`marked, this`gray, this`ups, this`objs
      ensures Marking(Now(), again, done, waiting, gcstate.InsideAtomic?) && Advanced(old(Now()), Now())
      ensures Remaining(Now()) < old(Remaining(Now())) && Confined(old(Now()), Now(), {})
    {
      ghost var s := Now();
      HeadPopped(again, done, waiting);
      var o := gray[0];
      marked := marked[o := Black];
      gray := gray[1..];
      assert Now() == PopObject(s);
      Traverse(o, waiting);
      ObjectStep(s, Now(), again, done, waiting);
    }

    lemma HeadPopped(again: seq<Ref>, done: seq<Ref>, waiting: set<Ref>)
      requires Marking(Now(), again, done, waiting, gcstate.InsideAtomic?) && gray != [] &&
               !IsThread(HeapOf(Now()), gray[0])
      ensures TriColor(PopObject(Now()), again, done, waiting, gcstate.InsideAtomic?, {gray[0]})
      ensures Graph(PopObject(Now()), waiting, gcstate.InsideAtomic?) && marked.Keys == objs.Keys
      ensures gray[0] in objs && gray[0] !in fixedgc && marked[gray[0]].Gray? && IsTraversed(objs[gray[0]]) &&
              UpvaluesOk(Heap(objs, ups))
      ensures ClosedSet(Heap(objs, ups), objs.Keys) && (!gcstate.InsideAtomic? ==> Covers(Heap(objs, ups), waiting))
    {
      ObjectPopped(Now(), again, done, waiting, gcstate.InsideAtomic?);
    }

    /** propagateall */
    method PropagateAll(ghost again: seq<Ref>, ghost done: seq<Ref>, ghost waiting: set<Ref>)
      returns (ghost again': seq<Ref>, ghost done': seq<Ref>)
      requires Marking(Now(), again, done, waiting, gcstate.InsideAtomic?)
      modifies this`marked, this`gray, this`grayagain, this`ups, this`objs, this`twups
      ensures Marking(Now(), again', done', waiting, gcstate.InsideAtomic?) && Advanced(old(Now()), Now()) && gray == []
      ensures Confined(old(Now()), Now(), {})
      ensures if gcstate.InsideAtomic? then again' == again
              else done' == done && (again == old(grayagain) ==> again' == grayagain)
    {
      ghost var s, atomic := Now(), gcstate.InsideAtomic?;
      again', done' := again, done;
      AdvancedSame(s);
      ConfinedSame(s, {});
      while gray != []
        invariant Marking(Now(), again', done', waiting, atomic) && Advanced(s, Now()) && Confined(s, Now(), {})
        invariant if atomic then again' == again
                  else done' == done && (again == old(grayagain) ==> again' == grayagain)
        decreases Remaining(Now())
      {
        ghost var s1 := Now();
        again', done' := PropagateMark(again', done', waiting);
        AdvancedTransitive(s, s1, Now());
        ConfinedTransitive(s, s1, Now(), {}, {}, {});
      }
    }

    // ---- Start and end of the mark phase ----

    /** markmt and the registry. */
    method MarkRegistryAndMt()
      requires CanMark() && PtrIn(registry, objs.Keys) && AllIn(mt, objs.Keys)
      modifies this`marked, this`gray
      ensures Grown(objs, old(marked), old(gray), marked, gray) && CanMark()
      ensures PtrIn(registry, NonWhite(marked)) && AllIn(mt, NonWhite(marked))
      ensures OnlyMarks(Heap(objs, ups), old(marked), marked, [registry] + mt)
    {
      ghost var m, g, h := marked, gray, Heap(objs, ups);
      MarkPtr(registry);
      ghost var m1, g1 := marked, gray;
      MarkValues(mt);
      SameStrongSelf(h);
      OnlyMarksTransitive(h, h, m, m1, marked, [registry], mt, [registry] + mt);
      GrownTransitive(objs, m, g, m1, g1, marked, gray);
      GrownWhites(objs, m1, g1, marked, gray);
    }

    /** One thread and the other roots are marked. */
    method MarkRoots(th: Ref)
      requires CanMark() && th in objs && PtrIn(registry, objs.Keys) && AllIn(mt, objs.Keys)
      modifies this`marked, this`gray
      ensures Grown(objs, old(marked), old(gray), marked, gray) && CanMark()
      ensures th in NonWhite(marked) && PtrSet([registry] + mt) <= NonWhite(marked)
      ensures OnlyMarks(Heap(objs, ups), old(marked), marked, [Some(th)] + ([registry] + mt))
    {
      ghost var m, g, h := marked, gray, Heap(objs, ups);
      MarkPtr(Some(th));
      ghost var m1, g1 := marked, gray;
      MarkRegistryAndMt();
      SameStrongSelf(h);
      OnlyMarksTransitive(h, h, m, m1, marked, [Some(th)], [registry] + mt, [Some(th)] + ([registry] + mt));
      GrownTransitive(objs, m, g, m1, g1, marked, gray);
      GrownWhites(objs, m1, g1, marked, gray);
      PointersMarked(registry, mt, NonWhite(marked));
    }

    lemma ReadyToStart()
      requires Inv(Now()) && gcstate.Pause?
      ensures CanMark() && mainthread in objs && PtrIn(registry, objs.Keys) && AllIn(mt, objs.Keys)
    {
      StartMarking(Now(), Now().(gray := [], grayagain := []));
      RootsExist(Now());
    }

    /** restartcollection and the change to the mark phase. */
    method RestartCollection()
      requires Inv(Now()) && gcstate.Pause?
      modifies this`gray, this`grayagain, this`marked, this`gcstate
      ensures Inv(Now()) && gcstate.Propagate? && SameGraph(old(HeapOf(Now())), HeapOf(Now()))
      ensures Confined(old(Now()), Now(), Roots(Now()))
    {
      ghost var s := Now();
      ReadyToStart();
      gray, grayagain := [], [];
      ghost var s1 := Now();
      MarkRoots(mainthread);
      ghost var s2 := Now();
      gcstate := Propagate;
      AfterRestart(s, s1, s2, Now());
      RootsConfined(s, Now(), mainthread);
    }

    /** A touched upvalue has its value marked. */
    method RemarkUpvalue(u: Up)
      requires CanMark() && u in ups && ups[u].Open? && PtrIn(UpValue(Heap(objs, ups), u), objs.Keys)
      modifies this`marked, this`gray, this`ups
      ensures Grown(objs, old(marked), old(gray), marked, gray) && CanMark()
      ensures ups == old(ups)[u := old(ups)[u].(touched := false)]
      ensures old(ups)[u].touched ==> PtrIn(UpValue(Heap(objs, ups), u), NonWhite(marked))
      ensures OnlyMarks(old(Heap(objs, ups)), old(marked), marked, [old(UpValue(Heap(objs, ups), u))])
    {
      ghost var h := Heap(objs, ups);
      NothingMarked(h, marked, [UpValue(h, u)]);
      if ups[u].touched {
        MarkPtr(UpValue(Heap(objs, ups), u));
        ups := ups[u := ups[u].(touched := false)];
        UntouchedClosed(h, Heap(objs, ups), u, objs.Keys);
      } else {
        NothingGrown(objs, marked, gray);
        assert ups == ups[u := ups[u].(touched := false)];
      }
    }

    /** The touched upvalues of a thread that is not marked, or has none. */
    method RemarkThread(th: Ref)
      requires CanMark() && IsThread(Heap(objs, ups), th) && UpvaluesOk(Heap(objs, ups))
      modifies this`marked, this`gray, this`ups
      ensures Grown(objs, old(marked), old(gray), marked, gray) && CanMark()
      ensures Remarked(old(Heap(objs, ups)), ups, th, objs[th].openupval, marked)
      ensures OnlyOpen(old(Heap(objs, ups)), old(marked), marked)
    {
      ghost var m, g, h := marked, gray, Heap(objs, ups);
      NothingGrown(objs, m, g);
      var l, i := objs[th].openupval, 0;
      assert ThreadOk(h, th);
      while i < |l|
        invariant 0 <= i <= |l| && Grown(objs, m, g, marked, gray) && CanMark()
        invariant Remarked(h, ups, th, l[..i], marked) && OnlyOpen(h, m, marked)
        invariant forall j :: i <= j < |l| ==> l[j] in ups && ups[l[j]] == h.ups[l[j]]
      {
        ghost var m1, g1, h1 := marked, gray, Heap(objs, ups);
        assert OpenIn(h, l[i], th) && RemarkedAt(h, ups, th, l[i]);
        OpenValueIn(h1, l[i], th, objs.Keys);
        RemarkUpvalue(l[i]);
        GrownTransitive(objs, m, g, m1, g1, marked, gray);
        GrownWhites(objs, m1, g1, marked, gray);
        RemarkedStep(h, h1, ups, th, l, i, m1, marked);
        RemarkedStrong(h, h1, th, l[..i], m1);
        OnlyOpenStep(h, h1, l[i], m, m1, marked);
        i := i + 1;
      }
      assert l[..i] == l;
    }

    /** remarkupvals: afterwards the list of threads with open upvalues has marked
        ones only. */
    method RemarkUpvals(ghost again: seq<Ref>)
      requires Marking(Now(), again, [], ToSet(twups), false)
      modifies this`marked, this`gray, this`ups, this`twups
      ensures Marking(Now(), again, [], {}, true) && RemarkedAll(old(Now()), Now())
    {
      ghost var s := Now();
      RemarkStart(s, again);
      var i: nat := 0;
      while i < |twups|
        invariant Remarking(s, Now(), again, i)
        decreases |twups| - i
      {
        i := RemarkNext(i, again, s);
      }
      RemarkEnd(s, Now(), again, i);
    }

    static predicate StaysListed(marked: Marks, objs: map<Ref, Obj>, th: Ref) {
      th in marked && marked[th].Gray? && th in objs && objs[th].Thread? && objs[th].openupval != []
    }

    /** One thread of the list is kept there, if it is marked and has open upvalues, or
        leaves it. */
    method RemarkNext(i: nat, ghost again: seq<Ref>, ghost s: Snap) returns (next: nat)
      requires Remarking(s, Now(), again, i) && i < |twups|
      modifies this`marked, this`gray, this`ups, this`twups
      ensures Remarking(s, Now(), again, next) && |twups| - next < old(|twups|) - i
      ensures if old(StaysListed(marked, objs, twups[i]))
              then next == i + 1 && twups == old(twups) && marked == old(marked)
              else next == i && twups == old(twups)[..i] + old(twups)[i + 1..]
    {
      ghost var s1 := Now();
      var th := NextTwup(s, again, i);
      if marked[th].Gray? && objs[th].openupval != [] {
        KeptThread(s, s1, again, i);
        next := i + 1;
      } else {
        DropTwup(i, again, s);
        next := i;
      }
    }

    method DropTwup(i: nat, ghost again: seq<Ref>, ghost s: Snap)
      requires Remarking(s, Now(), again, i) && i < |twups| && IsThread(Heap(objs, ups), twups[i])
      requires CanMark() && UpvaluesOk(Heap(objs, ups))
      modifies this`marked, this`gray, this`ups, this`twups
      ensures Remarking(s, Now(), again, i) && twups == old(twups)[..i] + old(twups)[i + 1..]
    {
      ghost var s1 := Now();
      var th := twups[i];
      twups := twups[..i] + twups[i + 1..];
      RemarkThread(th);
      RemovedThread(s, s1, Now(), again, i);
    }

    method NextTwup(ghost s: Snap, ghost again: seq<Ref>, i: nat) returns (th: Ref)
      requires Remarking(s, Now(), again, i) && i < |twups|
      ensures th == twups[i] && IsThread(Heap(objs, ups), th) && th in marked && CanMark() &&
              UpvaluesOk(Heap(objs, ups))
    {
      th := twups[i];
      assert TwupAt(Now(), i, i);
    }

    /** The roots again, which the program may have changed. */
    method MarkAgain()
      requires Inv(Now()) && gcstate.Atomic?
      modifies this`marked, this`gray, this`gcstate
      ensures Marking(Now(), grayagain, [], ToSet(twups), false) && gcstate.InsideAtomic? &&
              Roots(Now()) <= NonWhite(marked)
      ensures Progressed(old(Now()), Now()) && Confined(old(Now()), Now(), Roots(Now()))
    {
      ghost var s := Now();
      InvIsMarking(s);
      RootsExist(s);
      gcstate := InsideAtomic;
      ghost var s1 := Now();
      MarkRoots(running);
      RootsAgain(s, s1, Now());
      RootsConfined(s, Now(), running);
    }

    /** The first half of atomic: everything but what was to be visited again. */
    method AtomicStart() returns (ghost done: seq<Ref>)
      requires Inv(Now()) && gcstate.Atomic?
      modifies this`marked, this`gray, this`grayagain, this`ups, this`objs, this`twups, this`gcstate
      ensures Marking(Now(), old(grayagain), done, {}, true) && gcstate.InsideAtomic? && gray == []
      ensures Roots(Now()) <= NonWhite(marked) && Progressed(old(Now()), Now())
      ensures Confined(old(Now()), Now(), Needed(old(Now()))) &&
              OpenValues(HeapOf(Now())) <= old(OpenValues(HeapOf(Now())))
    {
      ghost var s, saved := Now(), grayagain;
      MarkAgain();
      ghost var s1 := Now();
      RemarkUpvals(saved);
      ghost var s2, rest := Now(), saved;
      rest, done := PropagateAll(saved, [], {});
      FirstHalf(s, s1, s2, Now());
    }

    /** The marking of atomic: its result is that what is still white is garbage. */
    method AtomicMark()
      requires Inv(Now()) && gcstate.Atomic? && gray == []
      modifies this`marked, this`gray, this`grayagain, this`ups, this`objs, this`twups, this`gcstate, this`currentwhite
      ensures CanSweep(Now()) && Progressed(old(Now()), Now())
      ensures Live(Now()) == NonWhite(marked) && Confined(old(Now()), Now(), Needed(old(Now())))
      ensures OpenValues(HeapOf(Now())) <= old(OpenValues(HeapOf(Now())))
    {
      ghost var s, rest := Now(), [];
      var saved := grayagain;
      ghost var done := AtomicStart();
      ghost var s1 := Now();
      gray := saved;
      ghost var s2 := Now();
      AgainIsGray(s1, s2, saved, done);
      rest, done := PropagateAll([], done, {});
      ghost var s3 := Now();
      currentwhite := OtherWhite(currentwhite);
      AtomicEnd(s, s1, s2, s3, done, Now());
    }

    // ---- Open upvalues ----

    /** luaC_upvalbarrier */
    method UpvalBarrier(u: Up)
      requires u in ups && ups[u].Closed?
      requires KeepInvariant(gcstate) ==> CanMark() && PtrIn(ups[u].value, objs.Keys)
      modifies this`marked, this`gray
      ensures KeepInvariant(gcstate) ==>
                Grown(objs, old(marked), old(gray), marked, gray) && CanMark() && PtrIn(ups[u].value, NonWhite(marked))
      ensures !KeepInvariant(gcstate) ==> marked == old(marked) && gray == old(gray)
    {
      if KeepInvariant(gcstate) {
        MarkPtr(ups[u].value);
      }
    }

    /** luaF_close: the open upvalues of the thread from the given level up get
        their own values, which become marked if need be. */
    method CloseUpvals(th: Ref, level: nat)
      requires IsThread(Heap(objs, ups), th) && UpvaluesOk(Heap(objs, ups))
      requires KeepInvariant(gcstate) ==> CanMark()
      modifies this`objs, this`ups, this`marked, this`gray
      ensures ClosedUps(old(Heap(objs, ups)), Heap(objs, ups), th) && UpvaluesOk(Heap(objs, ups))
      ensures ClosedFrom(old(Heap(objs, ups)), Heap(objs, ups), th, level)
      ensures KeepInvariant(gcstate) ==>
                Grown(objs, old(marked), old(gray), marked, gray) && CanMark() &&
                NewlyClosed(old(ups), ups, NonWhite(marked))
      ensures !KeepInvariant(gcstate) ==> marked == old(marked) && gray == old(gray)
    {
      ghost var h, m, g := Heap(objs, ups), marked, gray;
      NothingClosed(h, th);
      NothingGrown(objs, m, g);
      ThreadIsOk(h, th);
      while objs[th].openupval != [] && ups[objs[th].openupval[0]].slot >= level
        invariant ClosedUps(h, Heap(objs, ups), th) && UpvaluesOk(Heap(objs, ups)) && FirstIsOpen(Heap(objs, ups), th)
        invariant KeepInvariant(gcstate) ==>
                    Grown(objs, m, g, marked, gray) && CanMark() && NewlyClosed(h.ups, ups, NonWhite(marked))
        invariant !KeepInvariant(gcstate) ==> marked == m && gray == g
        invariant ClosedAbove(h, Heap(objs, ups), th, level)
        decreases |objs[th].openupval|
      {
        CloseHead(h, th, level, m, g);
        ThreadIsOk(Heap(objs, ups), th);
      }
      StillOpen(h, Heap(objs, ups), th, level);
    }

    /** The first of the open upvalues is closed. */
    method CloseHead(ghost h: Heap, th: Ref, ghost level: nat, ghost m: Marks, ghost g: seq<Ref>)
      requires ClosedUps(h, Heap(objs, ups), th) && UpvaluesOk(Heap(objs, ups))
      requires KeepInvariant(gcstate) ==>
                 Grown(objs, m, g, marked, gray) && CanMark() && NewlyClosed(h.ups, ups, NonWhite(marked))
      requires !KeepInvariant(gcstate) ==> marked == m && gray == g
      requires ClosedAbove(h, Heap(objs, ups), th, level)
      requires objs[th].openupval != [] && OpenIn(Heap(objs, ups), objs[th].openupval[0], th)
      requires ups[objs[th].openupval[0]].slot >= level
      modifies this`objs, this`ups, this`marked, this`gray
      ensures ClosedUps(h, Heap(objs, ups), th) && UpvaluesOk(Heap(objs, ups))
      ensures KeepInvariant(gcstate) ==>
                Grown(objs, m, g, marked, gray) && CanMark() && NewlyClosed(h.ups, ups, NonWhite(marked))
      ensures !KeepInvariant(gcstate) ==> marked == m && gray == g
      ensures ClosedAbove(h, Heap(objs, ups), th, level)
      ensures |objs[th].openupval| < |old(objs)[th].openupval|
    {
      ghost var h1, m1, g1 := Heap(objs, ups), marked, gray;
      var u, value := objs[th].openupval[0], UpValue(Heap(objs, ups), objs[th].openupval[0]);
      FirstClosed(h1, th);
      objs := objs[th := Thread(objs[th].stack, objs[th].openupval[1..])];
      ups := ups[u := Closed(value)];
      ghost var h2 := Heap(objs, ups);
      assert h2 == CloseFirst(h1, th);
      HeadClosed(h, h1, h2, th, level);
      if KeepInvariant(gcstate) { HeadCloses(h1, h2, th, m, m1, g, g1); }
      UpvalBarrier(u);
      if KeepInvariant(gcstate) { HeadMarked(h, h1, h2, th, m, g, m1, g1, marked, gray); }
    }

    // ---- Sweeping ----

    /** A dead object leaves its list and is freed; a dead thread closes its upvalues
        first. */
    method SweepDead(i: nat)
      requires Inv(SweepAt(Some(i))) && gcstate.SwpAllGc? && i < |allgc| && allgc[i] !in Live(Now())
      modifies this`objs, this`ups, this`marked, this`gray, this`allgc
      ensures Inv(SweepAt(Some(i))) && LiveKept(old(Now()), Now())
      ensures allgc == old(allgc)[..i] + old(allgc)[i + 1..] && gray == old(gray)
      ensures objs.Keys == old(objs.Keys) - {old(allgc[i])} && Live(Now()) == old(Live(Now()))
    {
      ghost var s := SweepAt(Some(i));
      var curr := allgc[i];
      DeadExists(s, i);
      allgc := allgc[..i] + allgc[i + 1..];
      ghost var h := FreeObj(curr);
      assert SweepAt(Some(i)) == SweptAway(s, h, i);
      DeadSwept(s, h, i);
    }

    /** freeobj: `h` is the heap after a thread has closed its upvalues. */
    method FreeObj(o: Ref) returns (ghost h: Heap)
      requires UpvaluesOk(Heap(objs, ups)) && o in objs && !KeepInvariant(gcstate)
      modifies this`objs, this`ups, this`marked, this`gray
      ensures if IsThread(old(Heap(objs, ups)), o)
              then ClosedUps(old(Heap(objs, ups)), h, o) && UpvaluesOk(h) && ClosedFrom(old(Heap(objs, ups)), h, o, 0)
              else h == old(Heap(objs, ups))
      ensures objs == h.objs - {o} && ups == h.ups && marked == old(marked) - {o} && gray == old(gray)
    {
      if objs[o].Thread? {
        CloseUpvals(o, 0);
      }
      h := Heap(objs, ups);
      objs, marked := objs - {o}, marked - {o};
    }

    /** A live object is white again. */
    method SweepLive(i: nat)
      requires Inv(SweepAt(Some(i))) && gcstate.SwpAllGc? && i < |allgc| && allgc[i] in Live(Now())
      modifies this`marked
      ensures Inv(SweepAt(Some(i + 1))) && LiveKept(old(Now()), Now()) && Live(Now()) == old(Live(Now()))
    {
      ghost var s := SweepAt(Some(i));
      marked := marked[allgc[i] := currentwhite];
      SweptLive(s, SweepAt(Some(i + 1)), i);
    }

    /** sweeplist: at most `count` objects from position `p` on; the dead ones among
        them are gone, the others are white. */
    method SweepList(p: nat, count: nat) returns (r: Option<nat>)
      requires Inv(SweepAt(Some(p))) && gcstate.SwpAllGc? && p <= |allgc|
      modifies this`objs, this`ups, this`marked, this`gray, this`allgc
      ensures Inv(SweepAt(r)) && LiveKept(old(Now()), Now()) && gray == old(gray)
      ensures allgc == old(Swept(allgc, p, count, Live(Now()))) && r == old(SweptTo(allgc, p, count, Live(Now())))
      ensures objs.Keys == old(objs.Keys) - old(DeadAmong(allgc, p, count, Live(Now())))
    {
      ghost var s := Now();
      SweepSame(s, p, count);
      var i: nat, n: nat := p, count;
      while i < |allgc| && n > 0
        invariant i <= |allgc| && Inv(SweepAt(Some(i))) && gray == s.gray
        invariant SweptSoFar(s, p, count, Now(), i, n)
        decreases n
      {
        i, n := SweepOne(i, n, s, p, count);
      }
      SweepEnds(s, p, count, Now(), i, n);
      if i == |allgc| {
        r := None;
        SweepOver(SweepAt(Some(i)), SweepAt(None));
      } else {
        r := Some(i);
      }
    }

    /** One object is freed or made white. */
    method SweepOne(i: nat, n: nat, ghost s: Snap, ghost p: nat, ghost count: nat) returns (next: nat, left: nat)
      requires Inv(SweepAt(Some(i))) && gcstate.SwpAllGc? && i < |allgc| && n > 0 &&
               SweptSoFar(s, p, count, Now(), i, n)
      modifies this`objs, this`ups, this`marked, this`gray, this`allgc
      ensures next <= |allgc| && Inv(SweepAt(Some(next))) && gray == old(gray)
      ensures SweptSoFar(s, p, count, Now(), next, left) && left == n - 1
    {
      ghost var s1 := Now();
      left := n - 1;
      ListedExists(SweepAt(Some(i)), i);
      if marked[allgc[i]] == OtherWhite(currentwhite) {
        SweepDead(i);
        next := i;
        SweptOneDead(s1, Now(), i, n);
      } else {
        SweepLive(i);
        next := i + 1;
        SweptOneLive(s1, Now(), i, n);
      }
      SweepLeadsOn(s, p, count, s1, i, n, Now(), next, left);
    }

    /** entersweep */
    method EnterSweep()
      requires CanSweep(Now())
      modifies this`objs, this`ups, this`marked, this`gray, this`allgc, this`gcstate, this`sweepgc
      ensures Inv(Now()) && gcstate.SwpAllGc? && LiveKept(old(Now()).(gcstate := SwpAllGc), Now())
    {
      ghost var s := Now();
      gcstate := SwpAllGc;
      SweepBegins(s, SweepAt(Some(0)));
      sweepgc := SweepList(0, 1);
    }

    /** sweepstep; the lists of objects with finalizers are empty. */
    method SweepStep(next: Phase)
      requires Inv(Now()) && SweepPhase(gcstate) && !gcstate.SwpEnd? && next == NextPhase(gcstate)
      modifies this`objs, this`ups, this`marked, this`gray, this`allgc, this`gcstate, this`sweepgc
      ensures Inv(Now()) && LiveKept(old(Now()).(gcstate := gcstate), Now())
      ensures gcstate == next || (gcstate == old(gcstate) && Inner(Now()) < old(Inner(Now())))
    {
      ghost var s := Now();
      if sweepgc.Some? {
        SweepProgress(allgc, sweepgc.value, GCSWEEPMAX, Live(s));
        sweepgc := SweepList(sweepgc.value, GCSWEEPMAX);
        if sweepgc.Some? {
          return;
        }
      } else {
        LiveKeptSame(s);
      }
      ghost var s1 := Now();
      gcstate := next;
      NextSweep(s, s1, Now());
    }

    /** The end of the sweep: the main thread is white again. */
    method FinishSweep()
      requires Inv(Now()) && gcstate.SwpEnd?
      modifies this`marked, this`gcstate
      ensures Inv(Now()) && gcstate.CallFin? && LiveKept(old(Now()).(gcstate := CallFin), Now())
    {
      ghost var s := Now();
      marked := marked[mainthread := currentwhite];
      gcstate := CallFin;
      SweepFinished(s, Now());
    }

    // ---- The state machine ----

    /** singlestep: one step of the collector. Nothing that the program can get at
        goes away, and what it gets at is the same as before. */
    method SingleStep()
      requires Inv(Now())
      modifies this`objs, this`ups, this`marked, this`gray, this`grayagain, this`twups, this`allgc, this`gcstate,
               this`sweepgc, this`currentwhite
      ensures Inv(Now()) && Safe(old(Now()), Now()) && Cycles(old(Now()), Now()) && !old(gcstate).InsideAtomic?
      ensures gcstate == NextPhase(old(gcstate)) || (gcstate == old(gcstate) && Inner(Now()) < old(Inner(Now())))
    {
      match gcstate {
        case Pause => RestartStep();
        case Propagate => PropagateStep();
        case Atomic => AtomicStep();
        case SwpAllGc => SweepPhaseStep(SwpFinObj);
        case SwpFinObj => SweepPhaseStep(SwpToBeFnz);
        case SwpToBeFnz => SweepPhaseStep(SwpEnd);
        case SwpEnd => FinishStep();
        case CallFin =>
          ghost var s := Now();
          gcstate := Pause;
          CycleOver(s, Now());
          RestCycles(s, Now());
        case InsideAtomic =>
      }
    }

    method RestartStep()
      requires Inv(Now()) && gcstate.Pause?
      modifies this`gray, this`grayagain, this`marked, this`gcstate
      ensures Inv(Now()) && Safe(old(Now()), Now()) && Cycles(old(Now()), Now()) && gcstate.Propagate?
    {
      ghost var s := Now();
      RestIsWhite(s);
      RestartCollection();
      SameGraphSafe(s, Now());
      MarkCycles(s, Now(), Roots(s));
    }

    method PropagateStep()
      requires Inv(Now()) && gcstate.Propagate?
      modifies this`marked, this`gray, this`grayagain, this`ups, this`objs, this`twups, this`gcstate
      ensures Inv(Now()) && Safe(old(Now()), Now()) && Cycles(old(Now()), Now())
      ensures gcstate.Atomic? || (gcstate.Propagate? && Inner(Now()) < old(Inner(Now())))
    {
      ghost var s := Now();
      VisitOne();
      if gray == [] {
        gcstate := Atomic;
      }
      Propagated(s, Now());
      PropagatedCycles(s, Now());
    }

    /** One gray object is traversed. */
    method VisitOne()
      requires Inv(Now()) && gcstate.Propagate?
      modifies this`marked, this`gray, this`grayagain, this`ups, this`objs, this`twups
      ensures Visited(old(Now()), Now()) && Remaining(Now()) < old(Remaining(Now())) && Confined(old(Now()), Now(), {})
    {
      InvIsMarking(Now());
      ghost var again, done := PropagateMark(grayagain, [], ToSet(twups));
    }

    method AtomicStep()
      requires Inv(Now()) && gcstate.Atomic?
      modifies this`objs, this`ups, this`marked, this`gray, this`grayagain, this`twups, this`allgc, this`gcstate,
               this`sweepgc, this`currentwhite
      ensures Inv(Now()) && Safe(old(Now()), Now()) && Cycles(old(Now()), Now()) && gcstate.SwpAllGc?
    {
      ghost var s := Now();
      EmptyGray();
      ghost var s1 := Now();
      AtomicMark();
      ghost var s2 := Now();
      EnterSweep();
      AtomicSafe(s, s1, s2, Now());
      AtomicCycles(s, s1, s2, Now());
    }

    /** Make sure the gray list is empty. */
    method EmptyGray()
      requires Inv(Now()) && gcstate.Atomic?
      modifies this`objs, this`ups, this`marked, this`gray, this`grayagain, this`twups
      ensures Inv(Now()) && LiveOk(Now()) && Safe(old(Now()), Now()) && gcstate.Atomic? && gray == []
      ensures Confined(old(Now()), Now(), {}) && Advanced(old(Now()), Now())
    {
      ghost var s := Now();
      InvIsMarking(s);
      ghost var again, done := PropagateAll(grayagain, [], ToSet(twups));
      Propagated(s, Now());
    }

    method SweepPhaseStep(next: Phase)
      requires Inv(Now()) && SweepPhase(gcstate) && !gcstate.SwpEnd? && next == NextPhase(gcstate)
      modifies this`objs, this`ups, this`marked, this`gray, this`allgc, this`gcstate, this`sweepgc
      ensures Inv(Now()) && Safe(old(Now()), Now()) && Cycles(old(Now()), Now())
      ensures gcstate == next || (gcstate == old(gcstate) && Inner(Now()) < old(Inner(Now())))
    {
      ghost var s := Now();
      SweepStep(next);
      LiveKeptSafe(s, Now());
      SweepCycles(s, Now());
    }

    method FinishStep()
      requires Inv(Now()) && gcstate.SwpEnd?
      modifies this`marked, this`gcstate
      ensures Inv(Now()) && Safe(old(Now()), Now()) && Cycles(old(Now()), Now()) && gcstate.CallFin?
    {
      ghost var s := Now();
      FinishSweep();
      LiveKeptSafe(s, Now());
      PauseAllLive(Now());
      SweepCycles(s, Now());
    }

    /** luaC_runtilstate: left alone, the collector gets to one of the states. */
    method RunUntilState(states: set<Phase>, ghost s: Snap, ghost c: Snap)
      requires Inv(Now()) && Safe(s, Now()) && Cycles(c, Now()) && states != {} && InsideAtomic !in states
      modifies this`objs, this`ups, this`marked, this`gray, this`grayagain, this`twups, this`allgc, this`gcstate,
               this`sweepgc, this`currentwhite
      ensures Inv(Now()) && Safe(s, Now()) && Cycles(c, Now()) && gcstate in states
    {
      ghost var target :| target in states;
      while gcstate !in states
        invariant Inv(Now()) && Safe(s, Now()) && Cycles(c, Now())
        decreases Distance(gcstate, target), Inner(Now())
      {
        ghost var s1 := Now();
        SingleStep();
        SafeTransitive(s, s1, Now());
        CyclesTransitive(c, s1, Now());
        CloserTo(s1.gcstate, target);
      }
    }

    /** luaC_fullgc: a whole collection, begun in the state `start`. What the program
        can get at is still there; what could not be reached at the start is gone. */
    method FullGc() returns (ghost start: Snap)
      requires Inv(Now())
      modifies this`objs, this`ups, this`marked, this`gray, this`grayagain, this`twups, this`allgc, this`gcstate,
               this`sweepgc, this`currentwhite
      ensures Inv(Now()) && Safe(old(Now()), Now()) && gcstate.Pause?
      ensures Inv(start) && Safe(old(Now()), start) && fixedgc == start.fixedgc
      ensures objs.Keys <= ReachableSet(HeapOf(start), Needed(start)) + ToSet(fixedgc)
    {
      ghost var s := Now();
      if KeepInvariant(gcstate) {
        AbandonMarking();
      } else {
        SafeSame(s);
      }
      RunUntilState({Pause}, s, Now());
      start := Now();
      OtherPhases();
      SafeSame(start);
      RunUntilState(AllPhases() - {Pause}, start, start);
      RunUntilState({CallFin}, start, start);
      GarbageGone(start, Now());
      ghost var end := Now();
      SafeSame(end);
      RunUntilState({Pause}, end, start);
      SafeTransitive(start, end, Now());
      SafeTransitive(s, start, Now());
    }

    /** Sweeping without an atomic step before it makes all objects white again and
        frees none. */
    method AbandonMarking()
      requires Inv(Now()) && KeepInvariant(gcstate)
      modifies this`objs, this`ups, this`marked, this`gray, this`allgc, this`gcstate, this`sweepgc
      ensures Inv(Now()) && Safe(old(Now()), Now()) && gcstate.SwpAllGc? && old(objs.Keys) <= Live(Now()) &&
              objs == old(objs)
    {
      ghost var s := Now();
      MarkingCanSweep(s);
      EnterSweep();
      NothingFreed(s, Now());
    }

    // ---- Barriers and new objects ----

    /** luaC_barrier and luaC_objbarrier: forward, or while sweeping the object is
        swept ahead of time. */
    method Barrier(p: Ref, v: Ptr)
      requires p in marked && (v.Some? ==> v.value in marked)
      requires KeepInvariant(gcstate) ==> CanMark() && PtrIn(v, objs.Keys)
      modifies this`marked, this`gray
      ensures KeepInvariant(gcstate) ==>
                Grown(objs, old(marked), old(gray), marked, gray) && (marked[p].Black? ==> PtrIn(v, NonWhite(marked)))
      ensures !KeepInvariant(gcstate) ==>
                gray == old(gray) &&
                marked == if old(marked)[p].Black? && v.Some? && IsWhite(old(marked)[v.value])
                          then old(marked)[p := currentwhite] else old(marked)
      ensures marked.Keys == old(marked).Keys
    {
      if v.Some? && marked[p].Black? && IsWhite(marked[v.value]) {
        if KeepInvariant(gcstate) {
          ReallyMark(v.value);
        } else {
          marked := marked[p := currentwhite];
        }
      } else if KeepInvariant(gcstate) {
        NothingGrown(objs, marked, gray);
      }
    }

    /** luaC_barrierback: the object will be traversed again. */
    method BarrierBack(t: Ref, v: Ptr)
      requires t in marked && (v.Some? ==> v.value in marked)
      modifies this`marked, this`grayagain
      ensures if old(marked)[t].Black? && v.Some? && IsWhite(old(marked)[v.value])
              then marked == old(marked)[t := Gray] && grayagain == [t] + old(grayagain)
              else marked == old(marked) && grayagain == old(grayagain)
    {
      if v.Some? && marked[t].Black? && IsWhite(marked[v.value]) {
        marked := marked[t := Gray];
        grayagain := [t] + grayagain;
      }
    }

    /** luaC_newobj, with the memory at `x` from the allocator: the object is white and
        first in the list; a sweep that is under way stays where it is. */
    method NewObj(x: Ref, o: Obj)
      requires x !in objs
      modifies this`objs, this`marked, this`allgc, this`sweepgc
      ensures objs == old(objs)[x := o] && marked == old(marked)[x := currentwhite]
      ensures allgc == [x] + old(allgc)
      ensures sweepgc == if old(sweepgc).Some? && old(sweepgc).value > 0 then Some(old(sweepgc).value + 1)
                         else old(sweepgc)
    {
      objs := objs[x := o];
      marked := marked[x := currentwhite];
      allgc := [x] + allgc;
      if sweepgc.Some? && sweepgc.value > 0 {
        sweepgc := Some(sweepgc.value + 1);
      }
    }
  }

  lemma AllInOneMore(ps: seq<Ptr>, i: nat, s: set<Ref>)
    requires i < |ps| && AllIn(ps[..i], s) && PtrIn(ps[i], s)
    ensures AllIn(ps[..i + 1], s)
  {
    assert ps[..i + 1] == ps[..i] + [ps[i]];
    assert forall j :: 0 <= j < i ==> PtrIn(ps[..i][j], s);
  }

  lemma TablePointers(mt: Ptr, slots: seq<Ptr>, s: set<Ref>)
    ensures AllIn([mt] + slots, s) <==> PtrIn(mt, s) && AllIn(slots, s)
  {
    var ps := [mt] + slots;
    assert ps[0] == mt;
    if AllIn(ps, s) {
      forall i | 0 <= i < |slots| ensures PtrIn(slots[i], s) {
        assert ps[i + 1] == slots[i];
      }
    }
  }

  lemma UdataPointers(h: Heap, o: Ref, s: set<Ref>)
    requires ClosedSet(h, s) && o in s && o in h.objs && h.objs[o].Udata?
    ensures PtrIn(h.objs[o].metatable, s) && PtrIn(h.objs[o].user, s)
  {
    assert StaysIn(h, o, s);
    var ps := Direct(h.objs[o]);
    assert PtrIn(ps[0], s) && PtrIn(ps[1], s);
  }
}
