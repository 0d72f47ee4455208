/** How the invariants follow the elementary actions of the mark phase
    (src/lgc.c). */
module GcMarking {
  import opened LuaValues
  import opened GcHeap
  import opened GcState

  /** Objects that reallymarkobject leaves gray, to be traversed later. */
  predicate IsTraversed(o: Obj) {
    !o.Str? && !o.Udata?
  }

  predicate GrownAt(objs: map<Ref, Obj>, m: Marks, m': Marks, x: Ref)
    requires x in m && x in m'
  {
    if !IsWhite(m[x]) || m'[x] == m[x] then m'[x] == m[x]
    else x in objs && if IsTraversed(objs[x]) then m'[x].Gray?
                      else m'[x].Black? && AllIn(Direct(objs[x]), NonWhite(m'))
  }

  predicate NewGray(m: Marks, m': Marks, x: Ref) {
    x in m && x in m' && IsWhite(m[x]) && m'[x].Gray?
  }

  /** White objects have been marked: those to be traversed joined the gray list,
      the others are black and refer to no white object. */
  ghost predicate Grown(objs: map<Ref, Obj>, m: Marks, g: seq<Ref>, m': Marks, g': seq<Ref>) {
    && m'.Keys == m.Keys
    && (forall x {:trigger GrownAt(objs, m, m', x)} :: x in m ==> GrownAt(objs, m, m', x))
    && (forall x :: multiset(g')[x] == multiset(g)[x] + Count(NewGray(m, m', x)))
  }

  lemma GrownWhites(objs: map<Ref, Obj>, m: Marks, g: seq<Ref>, m': Marks, g': seq<Ref>)
    requires Grown(objs, m, g, m', g')
    ensures Whites(m') <= Whites(m) && NonWhite(m) <= NonWhite(m')
  {
    forall x | x in m ensures IsWhite(m'[x]) ==> IsWhite(m[x]) {
      assert GrownAt(objs, m, m', x);
    }
  }

  lemma AllInMore(ps: seq<Ptr>, s: set<Ref>, s': set<Ref>)
    requires AllIn(ps, s) && s <= s'
    ensures AllIn(ps, s')
  {
    forall i | 0 <= i < |ps| ensures PtrIn(ps[i], s') {
      assert PtrIn(ps[i], s);
    }
  }

  lemma GrownTransitive(objs: map<Ref, Obj>, m: Marks, g: seq<Ref>, m1: Marks, g1: seq<Ref>, m2: Marks, g2: seq<Ref>)
    requires Grown(objs, m, g, m1, g1) && Grown(objs, m1, g1, m2, g2)
    ensures Grown(objs, m, g, m2, g2)
  {
    GrownWhites(objs, m1, g1, m2, g2);
    forall x | x in m ensures GrownAt(objs, m, m2, x) {
      assert GrownAt(objs, m, m1, x) && GrownAt(objs, m1, m2, x);
      if x in objs && !IsTraversed(objs[x]) && m1[x] != m[x] {
        AllInMore(Direct(objs[x]), NonWhite(m1), NonWhite(m2));
      }
    }
    forall x ensures multiset(g2)[x] == multiset(g)[x] + Count(NewGray(m, m2, x)) {
      if x in m { assert GrownAt(objs, m, m1, x) && GrownAt(objs, m1, m2, x); }
    }
  }

  /** Marking a string. */
  lemma StringMarked(objs: map<Ref, Obj>, m: Marks, g: seq<Ref>, o: Ref)
    requires o in m && IsWhite(m[o]) && o in objs && objs[o].Str?
    ensures Grown(objs, m, g, m[o := Black], g)
  {
    forall x | x in m ensures GrownAt(objs, m, m[o := Black], x) {
    }
  }

  /** Marking an object that will be traversed. */
  lemma TraversedMarked(objs: map<Ref, Obj>, m: Marks, g: seq<Ref>, o: Ref)
    requires o in m && IsWhite(m[o]) && o in objs && IsTraversed(objs[o])
    ensures Grown(objs, m, g, m[o := Gray], [o] + g)
  {
    forall x | x in m ensures GrownAt(objs, m, m[o := Gray], x) {
    }
  }

  /** Marking a userdata: its metatable, itself, then its user value. */
  lemma UdataMarked(objs: map<Ref, Obj>, m: Marks, g: seq<Ref>, o: Ref, m1: Marks, g1: seq<Ref>, m2: Marks,
                    g2: seq<Ref>)
    requires o in m && IsWhite(m[o]) && o in objs && objs[o].Udata?
    requires Grown(objs, m[o := Gray], g, m1, g1) && PtrIn(objs[o].metatable, NonWhite(m1))
    requires Grown(objs, m1[o := Black], g1, m2, g2) && PtrIn(objs[o].user, NonWhite(m2))
    ensures Grown(objs, m, g, m2, g2) && m2[o].Black?
  {
    GrownWhites(objs, m1[o := Black], g1, m2, g2);
    assert GrownAt(objs, m[o := Gray], m1, o) && GrownAt(objs, m1[o := Black], m2, o);
    assert NonWhite(m1) <= NonWhite(m1[o := Black]);
    forall x | x in m ensures GrownAt(objs, m, m2, x) {
      assert GrownAt(objs, m[o := Gray], m1, x) && GrownAt(objs, m1[o := Black], m2, x);
      if x != o && x in objs && !IsTraversed(objs[x]) && m1[x] != m[x] {
        AllInMore(Direct(objs[x]), NonWhite(m1), NonWhite(m2));
      }
    }
    forall x ensures multiset(g2)[x] == multiset(g)[x] + Count(NewGray(m, m2, x)) {
      if x in m { assert GrownAt(objs, m[o := Gray], m1, x) && GrownAt(objs, m1[o := Black], m2, x); }
    }
  }

  lemma NothingGrown(objs: map<Ref, Obj>, m: Marks, g: seq<Ref>)
    ensures Grown(objs, m, g, m, g)
  {
    forall x | x in m ensures GrownAt(objs, m, m, x) {
    }
  }

  lemma FewerWhites(m: Marks, m': Marks, o: Ref)
    requires Whites(m') <= Whites(m) && o in Whites(m) && o !in Whites(m')
    ensures |Whites(m')| < |Whites(m)|
  {
    assert Whites(m') <= Whites(m) - {o};
    Subset(Whites(m'), Whites(m) - {o});
  }

  lemma {:induction false} Subset<T>(a: set<T>, b: set<T>)
    requires a <= b
    ensures |a| <= |b|
  {
    if a != {} {
      var x :| x in a;
      Subset(a - {x}, b - {x});
    }
  }

  // ---- The main invariant ----

  predicate OpenKept(u: UpVal, u': UpVal) {
    u'.Open? == u.Open? && (u.Open? ==> u'.thread == u.thread && (u.touched ==> u'.touched))
  }

  lemma UpBlackMore(h: Heap, h': Heap, m: Marks, m': Marks, u: Up, waiting: set<Ref>, atomic: bool)
    requires UpBlackOk(h, m, u, waiting, atomic) && NonWhite(m) <= NonWhite(m') && m'.Keys == m.Keys
    requires UpValue(h', u) == UpValue(h, u)
    requires (u in h.ups <==> u in h'.ups) && (u in h.ups ==> OpenKept(h.ups[u], h'.ups[u]))
    ensures UpBlackOk(h', m', u, waiting, atomic)
  {
    if Excused(h, m, u, waiting, atomic) && !(h.ups[u].touched && h.ups[u].thread in waiting) {
      assert h.ups[u].thread in NonWhite(m);
    }
  }

  lemma BlackMore(h: Heap, h': Heap, m: Marks, m': Marks, o: Obj, waiting: set<Ref>, atomic: bool)
    requires BlackOk(h, m, o, waiting, atomic) && NonWhite(m) <= NonWhite(m') && m'.Keys == m.Keys
    requires TouchedMore(h.ups, h'.ups) && SameStacks(h.objs, h'.objs)
    ensures BlackOk(h', m', o, waiting, atomic)
  {
    AllInMore(Direct(o), NonWhite(m), NonWhite(m'));
    forall i | 0 <= i < |UpvalsOf(o)| ensures UpBlackOk(h', m', UpvalsOf(o)[i], waiting, atomic) {
      SameUpValue(h, h', UpvalsOf(o)[i]);
      UpBlackMore(h, h', m, m', UpvalsOf(o)[i], waiting, atomic);
    }
  }

  /** Open upvalues may have been touched. */
  ghost predicate TouchedMore(ups: map<Up, UpVal>, ups': map<Up, UpVal>) {
    ups'.Keys == ups.Keys && forall u :: u in ups ==> TouchedAt(ups, ups', u)
  }

  predicate TouchedAt(ups: map<Up, UpVal>, ups': map<Up, UpVal>, u: Up)
    requires u in ups && u in ups'
  {
    ups'[u] == ups[u] || (ups[u].Open? && ups'[u] == ups[u].(touched := true))
  }

  /** All threads have the same stacks. */
  ghost predicate SameStacks(objs: map<Ref, Obj>, objs': map<Ref, Obj>) {
    forall x :: SameStack(objs, objs', x)
  }

  predicate SameStack(objs: map<Ref, Obj>, objs': map<Ref, Obj>, x: Ref) {
    && (x in objs && objs[x].Thread? <==> x in objs' && objs'[x].Thread?)
    && (x in objs && objs[x].Thread? ==> objs'[x].stack == objs[x].stack)
  }

  lemma SameUpValue(h: Heap, h': Heap, u: Up)
    requires TouchedMore(h.ups, h'.ups) && SameStacks(h.objs, h'.objs)
    ensures UpValue(h', u) == UpValue(h, u)
    ensures (u in h.ups <==> u in h'.ups) && (u in h.ups ==> OpenKept(h.ups[u], h'.ups[u]))
  {
    if u in h.ups {
      assert TouchedAt(h.ups, h'.ups, u);
      assert h.ups[u].Open? ==> SameStack(h.objs, h'.objs, h.ups[u].thread);
    }
  }

  /** Black objects with the same contents stay as they should be. */
  lemma BlacksKept(s: Snap, s': Snap, waiting: set<Ref>, atomic: bool, except: set<Ref>)
    requires BlacksOk(s, waiting, atomic, except) && s'.marked.Keys == s.marked.Keys
    requires NonWhite(s.marked) <= NonWhite(s'.marked)
    requires TouchedMore(s.ups, s'.ups) && SameStacks(s.objs, s'.objs)
    requires forall x :: x in s'.marked && s'.marked[x].Black? && x !in except ==>
               s.marked[x].Black? && (x in s.objs ==> x in s'.objs && s'.objs[x] == s.objs[x])
    ensures BlacksOk(s', waiting, atomic, except)
  {
    forall x | x in s'.marked && s'.marked[x].Black? && x !in except
      ensures BlackAt(s', x, waiting, atomic)
    {
      assert BlackAt(s, x, waiting, atomic);
      BlackMore(HeapOf(s), HeapOf(s'), s.marked, s'.marked, s.objs[x], waiting, atomic);
    }
  }

  lemma DonesKept(s: Snap, s': Snap, done: seq<Ref>)
    requires DonesOk(s, done) && NonWhite(s.marked) <= NonWhite(s'.marked) && ToSet(s.twups) <= ToSet(s'.twups)
    requires forall th :: IsThread(HeapOf(s), th) ==> IsThread(HeapOf(s'), th) && s'.objs[th] == s.objs[th]
    ensures DonesOk(s', done)
  {
    forall th | th in done ensures DoneOk(s', th) {
      assert DoneOk(s, th);
      AllInMore(s.objs[th].stack, NonWhite(s.marked), NonWhite(s'.marked));
      assert th in s.twups ==> th in ToSet(s.twups);
    }
  }

  /** Marking keeps the main invariant. */
  lemma GrownTri(s: Snap, s': Snap, again: seq<Ref>, done: seq<Ref>, waiting: set<Ref>, atomic: bool, except: set<Ref>)
    requires TriColor(s, again, done, waiting, atomic, except) && FixedOk(s) && s.marked.Keys == s.objs.Keys
    requires IsWhite(s.currentwhite)
    requires s' == s.(marked := s'.marked, gray := s'.gray) && Grown(s.objs, s.marked, s.gray, s'.marked, s'.gray)
    ensures TriColor(s', again, done, waiting, atomic, except) && FixedOk(s')
  {
    GrownWhites(s.objs, s.marked, s.gray, s'.marked, s'.gray);
    DonesKept(s, s', done);
    GrownBlacks(s, s', waiting, atomic, except);
    GrownLists(s, s', again, done);
    forall x | x in s'.marked ensures ColorOk(s', x) {
      assert ColorOk(s, x) && GrownAt(s.objs, s.marked, s'.marked, x);
    }
  }

  lemma GrownBlacks(s: Snap, s': Snap, waiting: set<Ref>, atomic: bool, except: set<Ref>)
    requires BlacksOk(s, waiting, atomic, except) && s.marked.Keys == s.objs.Keys
    requires s' == s.(marked := s'.marked, gray := s'.gray) && Grown(s.objs, s.marked, s.gray, s'.marked, s'.gray)
    ensures BlacksOk(s', waiting, atomic, except)
  {
    GrownWhites(s.objs, s.marked, s.gray, s'.marked, s'.gray);
    forall x | x in s'.marked && s'.marked[x].Black? && x !in except
      ensures BlackAt(s', x, waiting, atomic)
    {
      assert GrownAt(s.objs, s.marked, s'.marked, x);
      if s.marked[x].Black? {
        assert BlackAt(s, x, waiting, atomic);
      BlackMore(HeapOf(s), HeapOf(s'), s.marked, s'.marked, s.objs[x], waiting, atomic);
      }
    }
  }

  lemma GrownLists(s: Snap, s': Snap, again: seq<Ref>, done: seq<Ref>)
    requires FixedOk(s)
    requires forall x :: OnLists(s.gray, again, done, x) == Count(MustBeListed(s.marked, s.fixedgc, x))
    requires s' == s.(marked := s'.marked, gray := s'.gray) && Grown(s.objs, s.marked, s.gray, s'.marked, s'.gray)
    ensures FixedOk(s')
    ensures forall x :: OnLists(s'.gray, again, done, x) == Count(MustBeListed(s'.marked, s'.fixedgc, x))
  {
    forall x ensures OnLists(s'.gray, again, done, x) == Count(MustBeListed(s'.marked, s'.fixedgc, x)) {
      assert OnLists(s.gray, again, done, x) == Count(MustBeListed(s.marked, s.fixedgc, x));
      if x in s.marked { assert GrownAt(s.objs, s.marked, s'.marked, x); }
    }
    forall x | x in s'.fixedgc ensures x in s'.marked && s'.marked[x].Gray? {
      assert GrownAt(s.objs, s.marked, s'.marked, x);
    }
  }

  /** The first gray object is gray and not fixed. */
  lemma HeadIsGray(s: Snap, again: seq<Ref>, done: seq<Ref>, waiting: set<Ref>, atomic: bool)
    requires TriColor(s, again, done, waiting, atomic, {}) && s.gray != []
    ensures var o := s.gray[0];
            o in s.objs && o in s.marked && s.marked[o].Gray? && o !in s.fixedgc && IsTraversed(s.objs[o])
    ensures multiset(s.gray) == multiset(s.gray[1..]) + multiset{s.gray[0]}
    ensures s.gray[0] !in multiset(s.gray[1..]) + multiset(again) + multiset(done)
  {
    var o := s.gray[0];
    assert s.gray == [o] + s.gray[1..];
    assert multiset(s.gray)[o] >= 1;
    assert OnLists(s.gray, again, done, o) == Count(MustBeListed(s.marked, s.fixedgc, o));
    assert ColorOk(s, o);
  }

  /** An object leaves the gray list and turns black. */
  lemma PoppedTri(s: Snap, s': Snap, again: seq<Ref>, done: seq<Ref>, waiting: set<Ref>, atomic: bool)
    requires TriColor(s, again, done, waiting, atomic, {}) && s.gray != [] && s.gray[0] in s.objs &&
             !s.objs[s.gray[0]].Thread?
    requires FixedOk(s) && IsWhite(s.currentwhite) && s.gray[0] in s.marked
    requires s' == s.(marked := s.marked[s.gray[0] := Black], gray := s.gray[1..])
    ensures TriColor(s', again, done, waiting, atomic, {s.gray[0]}) && FixedOk(s') &&
            NonWhite(s'.marked) == NonWhite(s.marked)
  {
    var o := s.gray[0];
    HeadIsGray(s, again, done, waiting, atomic);
    assert NonWhite(s'.marked) == NonWhite(s.marked);
    forall x ensures OnLists(s'.gray, again, done, x) == Count(MustBeListed(s'.marked, s'.fixedgc, x)) {
      assert OnLists(s.gray, again, done, x) == Count(MustBeListed(s.marked, s.fixedgc, x));
    }
    BlacksKept(s, s', waiting, atomic, {o});
    DonesKept(s, s', done);
    forall x | x in s'.marked ensures ColorOk(s', x) {
      assert ColorOk(s, x);
    }
  }

  /** Open upvalues have been touched, the object has forgotten its cache. */
  lemma TouchedTri(s: Snap, s': Snap, o: Ref, again: seq<Ref>, done: seq<Ref>, waiting: set<Ref>, atomic: bool)
    requires TriColor(s, again, done, waiting, atomic, {o})
    requires s' == s.(objs := s'.objs, ups := s'.ups) && TouchedMore(s.ups, s'.ups) && CacheMayGo(s.objs, s'.objs, o)
    ensures TriColor(s', again, done, waiting, atomic, {o})
  {
    BlacksKept(s, s', waiting, atomic, {o});
    DonesKept(s, s', done);
    forall x | x in s'.marked ensures ColorOk(s', x) {
      assert ColorOk(s, x);
    }
  }

  predicate SameKind(o: Obj, o': Obj) {
    && o.Str? == o'.Str? && o.Udata? == o'.Udata? && o.Table? == o'.Table? && o.LClosure? == o'.LClosure?
    && o.CClosure? == o'.CClosure? && o.Thread? == o'.Thread? && o.Proto? == o'.Proto?
  }

  /** The excepted object has no reference to a white one any more. */
  lemma BlackAgain(s: Snap, o: Ref, again: seq<Ref>, done: seq<Ref>, waiting: set<Ref>, atomic: bool)
    requires TriColor(s, again, done, waiting, atomic, {o}) && o in s.objs
    requires BlackOk(HeapOf(s), s.marked, s.objs[o], waiting, atomic)
    ensures TriColor(s, again, done, waiting, atomic, {})
  {
  }

  // ---- Traversal ----

  /** Every thread with open upvalues is among those waiting to be looked at. */
  ghost predicate Covers(h: Heap, waiting: set<Ref>) {
    forall th :: HasOpen(h, th) ==> th in waiting
  }

  predicate UpsBlackOk(h: Heap, m: Marks, us: seq<Up>, waiting: set<Ref>, atomic: bool) {
    forall i :: 0 <= i < |us| ==> UpBlackOk(h, m, us[i], waiting, atomic)
  }

  /** An upvalue of a closure exists; open, its thread is looked at. */
  lemma UpvalueIn(h0: Heap, h: Heap, o: Ref, us: seq<Up>, i: nat, waiting: set<Ref>, atomic: bool)
    requires UpvaluesOk(h0) && h.objs == h0.objs && TouchedMore(h0.ups, h.ups) && ClosedSet(h, h.objs.Keys)
    requires o in h.objs && h.objs[o].LClosure? && us == h.objs[o].upvals && i < |us|
    requires !atomic ==> Covers(h0, waiting)
    ensures us[i] in h.ups && PtrIn(UpValue(h, us[i]), h.objs.Keys)
    ensures h.ups[us[i]].Open? && !atomic ==> h.ups[us[i]].thread in waiting
  {
    assert ClosureOk(h0, h0.objs[o]) && StaysIn(h, o, h.objs.Keys);
    assert UpvalsOf(h.objs[o])[i] == us[i];
    if h.ups[us[i]].Open? { assert OpenUpOk(h0, us[i]); }
  }

  lemma UpsBlackMore(h: Heap, h': Heap, m: Marks, m': Marks, us: seq<Up>, i: nat, waiting: set<Ref>, atomic: bool)
    requires i < |us| && UpsBlackOk(h, m, us[..i], waiting, atomic) && UpBlackOk(h', m', us[i], waiting, atomic)
    requires h'.objs == h.objs && TouchedMore(h.ups, h'.ups) && NonWhite(m) <= NonWhite(m') && m'.Keys == m.Keys
    ensures UpsBlackOk(h', m', us[..i + 1], waiting, atomic)
  {
    assert us[..i + 1] == us[..i] + [us[i]];
    forall j | 0 <= j < i ensures UpBlackOk(h', m', us[j], waiting, atomic) {
      assert us[..i][j] == us[j];
      SameUpValue(h, h', us[j]);
      UpBlackMore(h, h', m, m', us[j], waiting, atomic);
    }
  }

  lemma TouchedClosed(h: Heap, h': Heap, s: set<Ref>)
    requires ClosedSet(h, s) && h'.objs == h.objs && TouchedMore(h.ups, h'.ups)
    ensures ClosedSet(h', s)
  {
    forall a | a in s ensures StaysIn(h', a, s) {
      assert StaysIn(h, a, s);
      SamePointers(h, h', h.objs[a], s);
    }
  }

  lemma SamePointers(h: Heap, h': Heap, o: Obj, s: set<Ref>)
    requires PointsInto(h, o, s) && SameStacks(h.objs, h'.objs) && TouchedMore(h.ups, h'.ups)
    ensures PointsInto(h', o, s)
  {
    forall i | 0 <= i < |UpvalsOf(o)| ensures PtrIn(UpValue(h', UpvalsOf(o)[i]), s) {
      SameUpValue(h, h', UpvalsOf(o)[i]);
    }
  }

  /** Object `o` may be a prototype that has forgotten its cached closure. */
  ghost predicate CacheMayGo(objs: map<Ref, Obj>, objs': map<Ref, Obj>, o: Ref) {
    o in objs && o in objs' &&
    (objs' == objs || (objs[o].Proto? && objs' == objs[o := objs[o].(cache := None)]))
  }

  lemma CacheCleared(h: Heap, h': Heap, o: Ref)
    requires CacheMayGo(h.objs, h'.objs, o) && h'.ups == h.ups && ClosedSet(h, h.objs.Keys) && UpvaluesOk(h)
    ensures ClosedSet(h', h'.objs.Keys) && UpvaluesOk(h')
  {
    assert h'.objs.Keys == h.objs.Keys && SameStacks(h.objs, h'.objs);
    forall a | a in h'.objs ensures StaysIn(h', a, h'.objs.Keys) && ClosureOk(h', h'.objs[a]) {
      assert StaysIn(h, a, h.objs.Keys) && ClosureOk(h, h.objs[a]);
      SamePointers(h, h', h.objs[a], h.objs.Keys);
    }
    forall th | IsThread(h', th) ensures ThreadOk(h', th) {
      assert ThreadOk(h, th);
    }
    forall u | u in h'.ups && h'.ups[u].Open? ensures OpenUpOk(h', u) {
      assert OpenUpOk(h, u);
    }
  }

  lemma VisitStep(h: Heap, m: Marks, g: seq<Ref>, h1: Heap, m1: Marks, g1: seq<Ref>, h2: Heap, m2: Marks, g2: seq<Ref>,
                  us: seq<Up>, i: nat, waiting: set<Ref>, atomic: bool)
    requires h1.objs == h.objs && h2.objs == h.objs && TouchedMore(h.ups, h1.ups) && TouchedMore(h1.ups, h2.ups)
    requires Grown(h.objs, m, g, m1, g1) && Grown(h.objs, m1, g1, m2, g2)
    requires i < |us| && UpsBlackOk(h1, m1, us[..i], waiting, atomic) && UpBlackOk(h2, m2, us[i], waiting, atomic)
    ensures TouchedMore(h.ups, h2.ups) && Grown(h.objs, m, g, m2, g2) &&
            UpsBlackOk(h2, m2, us[..i + 1], waiting, atomic)
  {
    GrownTransitive(h.objs, m, g, m1, g1, m2, g2);
    GrownWhites(h.objs, m1, g1, m2, g2);
    UpsBlackMore(h1, h2, m1, m2, us, i, waiting, atomic);
  }

  // ---- One step of the propagation ----

  /** What holds while gray objects are being traversed. */
  ghost predicate Marking(s: Snap, again: seq<Ref>, done: seq<Ref>, waiting: set<Ref>, atomic: bool) {
    TriColor(s, again, done, waiting, atomic, {}) && Graph(s, waiting, atomic)
  }

  /** The part that does not depend on the gray lists. */
  ghost predicate Graph(s: Snap, waiting: set<Ref>, atomic: bool) {
    && Basics(s) && (!atomic ==> Covers(HeapOf(s), waiting))
    && (forall th :: th in s.twups ==> IsTwup(s, th, atomic))
  }

  predicate IsTwup(s: Snap, th: Ref, atomic: bool) {
    IsThread(HeapOf(s), th) && (atomic ==> th in NonWhite(s.marked))
  }

  ghost predicate Basics(s: Snap) {
    && s.marked.Keys == s.objs.Keys && IsWhite(s.currentwhite) && FixedOk(s) && UpvaluesOk(HeapOf(s))
    && ClosedSet(HeapOf(s), s.objs.Keys)
  }

  /** Prototypes may have forgotten their cached closures. */
  ghost predicate SameObjs(objs: map<Ref, Obj>, objs': map<Ref, Obj>) {
    objs'.Keys == objs.Keys && forall x :: x in objs ==> SameObj(objs, objs', x)
  }

  predicate SameObj(objs: map<Ref, Obj>, objs': map<Ref, Obj>, x: Ref)
    requires x in objs && x in objs'
  {
    objs'[x] == objs[x] || (objs[x].Proto? && objs'[x] == objs[x].(cache := None))
  }

  /** The program does not notice what the mark phase does. */
  ghost predicate Advanced(s: Snap, s': Snap) {
    && s' == s.(objs := s'.objs, ups := s'.ups, marked := s'.marked, gray := s'.gray, grayagain := s'.grayagain,
                twups := s'.twups)
    && SameObjs(s.objs, s'.objs) && TouchedMore(s.ups, s'.ups)
    && NonWhite(s.marked) <= NonWhite(s'.marked) && s'.marked.Keys == s.marked.Keys
    && ToSet(s.twups) <= ToSet(s'.twups) && (!s.gcstate.InsideAtomic? ==> s'.twups == s.twups)
  }

  /** The head of the gray list, if it is a thread. */
  function HeadThread(s: Snap): seq<Ref> {
    if s.gray != [] && IsThread(HeapOf(s), s.gray[0]) then [s.gray[0]] else []
  }

  /** Bound on the objects that are still to be traversed. */
  function Remaining(s: Snap): nat {
    |s.gray| + |Whites(s.marked)|
  }

  lemma AdvancedSame(s: Snap)
    ensures Advanced(s, s)
  {
  }

  lemma AdvancedTransitive(s: Snap, s1: Snap, s2: Snap)
    requires Advanced(s, s1) && Advanced(s1, s2)
    ensures Advanced(s, s2)
  {
  }

  /** Marking exchanges white objects for gray ones. */
  lemma GrownRemaining(objs: map<Ref, Obj>, m: Marks, g: seq<Ref>, m': Marks, g': seq<Ref>)
    requires Grown(objs, m, g, m', g')
    ensures |g'| + |Whites(m')| <= |g| + |Whites(m)|
  {
    GrownWhites(objs, m, g, m', g');
    var found := set x | x in m && NewGray(m, m', x);
    assert multiset(g') == multiset(g) + multiset(found);
    assert |multiset(g')| == |g'| && |multiset(g)| == |g|;
    assert found <= Whites(m) - Whites(m');
    Subset(found, Whites(m) - Whites(m'));
  }

  lemma ThreadPopped(s: Snap, s': Snap, again: seq<Ref>, done: seq<Ref>, waiting: set<Ref>, atomic: bool)
    requires TriColor(s, again, done, waiting, atomic, {}) && s.gray != []
    requires s' == s.(gray := s.gray[1..], grayagain := s'.grayagain)
    ensures TriColor(s', [s.gray[0]] + again, done, waiting, atomic, {})
  {
    HeadIsGray(s, again, done, waiting, atomic);
    BlacksKept(s, s', waiting, atomic, {});
    DonesKept(s, s', done);
    forall x | x in s'.marked ensures ColorOk(s', x) {
      assert ColorOk(s, x);
    }
    var o := s.gray[0];
    forall x ensures OnLists(s'.gray, [o] + again, done, x) == Count(MustBeListed(s'.marked, s'.fixedgc, x)) {
      assert OnLists(s.gray, again, done, x) == Count(MustBeListed(s.marked, s.fixedgc, x));
    }
  }

  // ---- Nothing more than necessary is marked ----

  predicate KeptIn(h: Heap, a: Ref, keep: set<Ref>)
    requires a in h.objs
  {
    AllIn(Direct(h.objs[a]), keep) && UpsIn(h, UpvalsOf(h.objs[a]), keep)
  }

  /** No strong reference leads out of the set. */
  ghost predicate ClosedStrong(h: Heap, keep: set<Ref>) {
    forall a {:trigger KeptIn(h, a, keep)} :: a in keep && a in h.objs ==> KeptIn(h, a, keep)
  }

  /** Only what can be reached from `ps` has been marked. */
  ghost predicate OnlyMarks(h: Heap, m: Marks, m': Marks, ps: seq<Ptr>) {
    forall keep {:trigger ClosedStrong(h, keep)} :: ClosedStrong(h, keep) && AllIn(ps, keep) ==>
      NonWhite(m') <= NonWhite(m) + keep
  }

  lemma NothingMarked(h: Heap, m: Marks, ps: seq<Ptr>)
    ensures OnlyMarks(h, m, m, ps)
  {
  }

  lemma OneMarked(h: Heap, m: Marks, m': Marks, o: Ref)
    requires NonWhite(m') <= NonWhite(m) + {o}
    ensures OnlyMarks(h, m, m', [Some(o)])
  {
    forall keep | ClosedStrong(h, keep) && AllIn([Some(o)], keep) ensures NonWhite(m') <= NonWhite(m) + keep {
      assert PtrIn([Some(o)][0], keep);
    }
  }

  /** Same strong references between the same objects. */
  ghost predicate SameStrong(h: Heap, h': Heap) {
    && h'.objs.Keys == h.objs.Keys
    && (forall x :: x in h.objs ==> StrongAt(h, h', x))
    && (forall u :: UpValue(h', u) == UpValue(h, u))
  }

  predicate StrongAt(h: Heap, h': Heap, x: Ref)
    requires x in h.objs && x in h'.objs
  {
    Direct(h'.objs[x]) == Direct(h.objs[x]) && UpvalsOf(h'.objs[x]) == UpvalsOf(h.objs[x])
  }

  lemma ClosedStrongSame(h: Heap, h': Heap, keep: set<Ref>)
    requires SameStrong(h, h') && ClosedStrong(h, keep)
    ensures ClosedStrong(h', keep)
  {
    forall a | a in keep && a in h'.objs ensures KeptIn(h', a, keep) {
      assert KeptIn(h, a, keep) && StrongAt(h, h', a);
    }
  }

  /** Two markings in a row; what they start from is among `ps`, or found in `o`. */
  lemma OnlyMarksTransitive(h: Heap, h1: Heap, m: Marks, m1: Marks, m2: Marks, ps: seq<Ptr>, qs: seq<Ptr>, rs: seq<Ptr>)
    requires SameStrong(h, h1) && OnlyMarks(h, m, m1, ps) && OnlyMarks(h1, m1, m2, qs)
    requires forall p :: p in ps || p in qs ==> p in rs
    ensures OnlyMarks(h, m, m2, rs)
  {
    forall keep | ClosedStrong(h, keep) && AllIn(rs, keep) ensures NonWhite(m2) <= NonWhite(m) + keep {
      ClosedStrongSame(h, h1, keep);
      AmongIn(ps, rs, keep);
      AmongIn(qs, rs, keep);
    }
  }

  lemma AmongIn(ps: seq<Ptr>, rs: seq<Ptr>, keep: set<Ref>)
    requires AllIn(rs, keep) && forall p :: p in ps ==> p in rs
    ensures AllIn(ps, keep)
  {
    forall i | 0 <= i < |ps| ensures PtrIn(ps[i], keep) {
      assert ps[i] in ps && ps[i] in rs;
      var j :| 0 <= j < |rs| && rs[j] == ps[i];
      assert PtrIn(rs[j], keep);
    }
  }

  /** A userdata and what it refers to. */
  lemma UdataOnly(h: Heap, o: Ref, m: Marks, m1: Marks, m2: Marks)
    requires o in h.objs && h.objs[o].Udata? && o in m && o in m1
    requires OnlyMarks(h, m[o := Gray], m1, [h.objs[o].metatable]) && OnlyMarks(h, m1[o := Black], m2, [h.objs[o].user])
    ensures OnlyMarks(h, m, m2, [Some(o)])
  {
    forall keep | ClosedStrong(h, keep) && AllIn([Some(o)], keep) ensures NonWhite(m2) <= NonWhite(m) + keep {
      assert PtrIn([Some(o)][0], keep) && KeptIn(h, o, keep);
      var ps := Direct(h.objs[o]);
      assert PtrIn(ps[0], keep) && PtrIn(ps[1], keep);
      assert AllIn([h.objs[o].metatable], keep) && AllIn([h.objs[o].user], keep);
      assert NonWhite(m[o := Gray]) <= NonWhite(m) + keep;
      assert NonWhite(m1) <= NonWhite(m[o := Gray]) + keep;
      assert NonWhite(m1[o := Black]) <= NonWhite(m1) + keep;
      assert NonWhite(m2) <= NonWhite(m1[o := Black]) + keep;
    }
  }

  lemma TouchedStrong(h: Heap, h': Heap)
    requires h'.objs == h.objs && TouchedMore(h.ups, h'.ups)
    ensures SameStrong(h, h')
  {
    forall u ensures UpValue(h', u) == UpValue(h, u) {
      SameUpValue(h, h', u);
    }
  }

  /** What an object refers to can be reached from the object. */
  lemma OnlyFromObject(h: Heap, o: Ref, m: Marks, m': Marks, ps: seq<Ptr>)
    requires o in h.objs && OnlyMarks(h, m, m', ps)
    requires forall p :: p in ps ==>
               p in Direct(h.objs[o]) || exists u :: u in UpvalsOf(h.objs[o]) && UpValue(h, u) == p
    ensures OnlyMarks(h, m, m', [Some(o)])
  {
    forall keep | ClosedStrong(h, keep) && AllIn([Some(o)], keep) ensures NonWhite(m') <= NonWhite(m) + keep {
      assert PtrIn([Some(o)][0], keep) && KeptIn(h, o, keep);
      forall i | 0 <= i < |ps| ensures PtrIn(ps[i], keep) {
        assert ps[i] in ps;
        if ps[i] in Direct(h.objs[o]) {
          var j :| 0 <= j < |Direct(h.objs[o])| && Direct(h.objs[o])[j] == ps[i];
          assert PtrIn(Direct(h.objs[o])[j], keep);
        } else {
          var u :| u in UpvalsOf(h.objs[o]) && UpValue(h, u) == ps[i];
          var j :| 0 <= j < |UpvalsOf(h.objs[o])| && UpvalsOf(h.objs[o])[j] == u;
          assert PtrIn(UpValue(h, UpvalsOf(h.objs[o])[j]), keep);
        }
      }
    }
  }

  lemma CacheStrong(h: Heap, h': Heap, o: Ref)
    requires CacheMayGo(h.objs, h'.objs, o) && h'.ups == h.ups
    ensures SameStrong(h, h')
  {
    assert h'.objs.Keys == h.objs.Keys && SameStacks(h.objs, h'.objs);
    forall u ensures UpValue(h', u) == UpValue(h, u) {
      assert u in h.ups && h.ups[u].Open? ==> SameStack(h.objs, h'.objs, h.ups[u].thread);
    }
  }

  /** A closed set with `extra` that has all that is marked keeps having it. */
  ghost predicate Confined(s: Snap, s': Snap, extra: set<Ref>) {
    && SameStrong(HeapOf(s), HeapOf(s')) && s'.fixedgc == s.fixedgc
    && forall keep {:trigger ClosedStrong(HeapOf(s), keep)} ::
         ClosedStrong(HeapOf(s), keep) && extra <= keep && NonWhite(s.marked) <= keep + ToSet(s.fixedgc) ==>
         NonWhite(s'.marked) <= keep + ToSet(s.fixedgc)
  }

  lemma ConfinedSame(s: Snap, extra: set<Ref>)
    ensures Confined(s, s, extra)
  {
  }

  lemma SameStrongTransitive(h: Heap, h1: Heap, h2: Heap)
    requires SameStrong(h, h1) && SameStrong(h1, h2)
    ensures SameStrong(h, h2)
  {
    forall x | x in h.objs ensures StrongAt(h, h2, x) {
      assert StrongAt(h, h1, x) && StrongAt(h1, h2, x);
    }
  }

  lemma ConfinedTransitive(s: Snap, s1: Snap, s2: Snap, extra1: set<Ref>, extra2: set<Ref>, extra: set<Ref>)
    requires Confined(s, s1, extra1) && Confined(s1, s2, extra2) && extra1 <= extra && extra2 <= extra
    ensures Confined(s, s2, extra)
  {
    SameStrongTransitive(HeapOf(s), HeapOf(s1), HeapOf(s2));
    forall keep | ClosedStrong(HeapOf(s), keep) && extra <= keep && NonWhite(s.marked) <= keep + ToSet(s.fixedgc)
      ensures NonWhite(s2.marked) <= keep + ToSet(s.fixedgc)
    {
      ClosedStrongSame(HeapOf(s), HeapOf(s1), keep);
    }
  }

  /** Marking from an object that is marked already. */
  lemma ConfinedStep(s: Snap, s': Snap, o: Ref, m: Marks)
    requires o in NonWhite(s.marked) && o !in s.fixedgc && s'.fixedgc == s.fixedgc
    requires SameStrong(HeapOf(s), HeapOf(s')) && NonWhite(m) == NonWhite(s.marked)
    requires OnlyMarks(HeapOf(s), m, s'.marked, [Some(o)])
    ensures Confined(s, s', {})
  {
    forall keep | ClosedStrong(HeapOf(s), keep) && NonWhite(s.marked) <= keep + ToSet(s.fixedgc)
      ensures NonWhite(s'.marked) <= keep + ToSet(s.fixedgc)
    {
      assert AllIn([Some(o)], keep);
    }
  }

  lemma AdvancedStrong(s: Snap, s': Snap)
    requires Advanced(s, s')
    ensures SameStrong(HeapOf(s), HeapOf(s'))
  {
    assert forall x :: x in s.objs ==> SameObj(s.objs, s'.objs, x);
    forall x ensures SameStack(s.objs, s'.objs, x) {
      assert x in s.objs ==> SameObj(s.objs, s'.objs, x);
    }
    forall u ensures UpValue(HeapOf(s'), u) == UpValue(HeapOf(s), u) {
      SameUpValue(HeapOf(s), HeapOf(s'), u);
    }
  }

  /** Marking from given pointers. */
  lemma ConfinedMarks(s: Snap, s': Snap, ps: seq<Ptr>, extra: set<Ref>)
    requires SameStrong(HeapOf(s), HeapOf(s')) && s'.fixedgc == s.fixedgc
    requires OnlyMarks(HeapOf(s), s.marked, s'.marked, ps) && AllIn(ps, extra)
    ensures Confined(s, s', extra)
  {
    forall keep | ClosedStrong(HeapOf(s), keep) && extra <= keep && NonWhite(s.marked) <= keep + ToSet(s.fixedgc)
      ensures NonWhite(s'.marked) <= keep + ToSet(s.fixedgc)
    {
      AllInMore(ps, extra, keep);
    }
  }

  lemma SameStrongSelf(h: Heap)
    ensures SameStrong(h, h)
  {
  }

  /** The values that open upvalues have. */
  function OpenValues(h: Heap): set<Ref> {
    set u | u in h.ups && h.ups[u].Open? && UpValue(h, u).Some? :: UpValue(h, u).value
  }

  lemma VisitOnly(h: Heap, h1: Heap, o: Ref, us: seq<Up>, i: nat, m: Marks, m1: Marks, m2: Marks)
    requires h1.objs == h.objs && TouchedMore(h.ups, h1.ups) && o in h.objs && us == UpvalsOf(h.objs[o]) && i < |us|
    requires OnlyMarks(h, m, m1, [Some(o)]) && OnlyMarks(h1, m1, m2, [UpValue(h1, us[i])])
    ensures OnlyMarks(h, m, m2, [Some(o)])
  {
    TouchedStrong(h, h1);
    OnlyFromObject(h1, o, m1, m2, [UpValue(h1, us[i])]);
    OnlyMarksTransitive(h, h1, m, m1, m2, [Some(o)], [Some(o)], [Some(o)]);
  }

  lemma ProtoOnly(h: Heap, h': Heap, o: Ref, m: Marks, m': Marks)
    requires CacheMayGo(h.objs, h'.objs, o) && h'.ups == h.ups && h.objs[o].Proto?
    requires OnlyMarks(h', m, m', Direct(h'.objs[o]))
    ensures OnlyMarks(h, m, m', [Some(o)])
  {
    CacheStrong(h, h', o);
    OnlyFromObject(h', o, m, m', Direct(h'.objs[o]));
    NothingMarked(h, m, [Some(o)]);
    OnlyMarksTransitive(h, h', m, m, m', [Some(o)], [Some(o)], [Some(o)]);
  }

  /** Only what can be reached from the values of open upvalues has been marked. */
  ghost predicate OnlyOpen(h: Heap, m: Marks, m': Marks) {
    forall keep {:trigger ClosedStrong(h, keep)} :: ClosedStrong(h, keep) && OpenValues(h) <= keep ==>
      NonWhite(m') <= NonWhite(m) + keep
  }

  /** One more open upvalue has been looked at. */
  lemma OnlyOpenStep(h: Heap, h1: Heap, u: Up, m: Marks, m1: Marks, m2: Marks)
    requires SameStrong(h, h1) && u in h.ups && h.ups[u].Open?
    requires OnlyOpen(h, m, m1) && OnlyMarks(h1, m1, m2, [UpValue(h1, u)])
    ensures OnlyOpen(h, m, m2)
  {
    forall keep | ClosedStrong(h, keep) && OpenValues(h) <= keep ensures NonWhite(m2) <= NonWhite(m) + keep {
      ClosedStrongSame(h, h1, keep);
      assert UpValue(h, u).Some? ==> UpValue(h, u).value in OpenValues(h);
      assert AllIn([UpValue(h1, u)], keep);
    }
  }

  lemma ConfinedOpen(s: Snap, s': Snap)
    requires SameStrong(HeapOf(s), HeapOf(s')) && s'.fixedgc == s.fixedgc && OnlyOpen(HeapOf(s), s.marked, s'.marked)
    ensures Confined(s, s', OpenValues(HeapOf(s)))
  {
  }
}
