/** What the program does between two steps of the collector: every store with the
    barrier that the C code has there (src/lapi.c, src/lvm.c, src/lfunc.c,
    src/lcode.c). */
module Mutator {
  import opened LuaValues
  import opened GcHeap
  import opened GcState
  import opened GcAtomic
  import opened GcSweeping
  import opened StoreSteps
  import opened Collector

  /** The program has got hold of the object: it is not condemned. */
  ghost predicate Held(g: GlobalState, x: Ref)
    reads g
  {
    x in Live(g.Now()) && x in g.objs
  }

  ghost predicate HeldPtr(g: GlobalState, v: Ptr)
    reads g
  {
    PtrIn(v, Live(g.Now()))
  }

  /** Slot `i` of a table has the value `v`; behind the last slot it is a new one. */
  function SetAt(l: seq<Ptr>, i: nat, v: Ptr): (r: seq<Ptr>)
    ensures i < |l| ==> |r| == |l| && r[i] == v && forall k :: 0 <= k < |l| && k != i ==> r[k] == l[k]
    ensures i >= |l| ==> |r| == |l| + 1 && r[|l|] == v && forall k :: 0 <= k < |l| ==> r[k] == l[k]
  {
    if i < |l| then l[i := v] else l + [v]
  }

  lemma SetAtMore(l: seq<Ptr>, i: nat, v: Ptr)
    ensures forall j :: 0 <= j < |SetAt(l, i, v)| ==> SetAt(l, i, v)[j] == v || SetAt(l, i, v)[j] in l
  {
  }

  /** A key or a value is stored in a table: backward barrier. */
  method StoreSlot(g: GlobalState, t: Ref, i: nat, v: Ptr)
    requires Inv(g.Now()) && Held(g, t) && g.objs[t].Table? && HeldPtr(g, v)
    modifies g`objs, g`marked, g`grayagain
    ensures Inv(g.Now()) && g.objs == old(g.objs)[t := Table(old(g.objs)[t].metatable,
                                                             SetAt(old(g.objs)[t].slots, i, v))]
  {
    ghost var s := g.Now();
    ghost var b := Table(g.objs[t].metatable, SetAt(g.objs[t].slots, i, v));
    SetAtMore(g.objs[t].slots, i, v);
    TableMore(s.objs[t], b, v);
    KeysOfInv(s);
    g.objs := g.objs[t := Table(g.objs[t].metatable, SetAt(g.objs[t].slots, i, v))];
    g.BarrierBack(t, v);
    BackStore(s, t, b, v, g.Now());
  }

  lemma TableMore(a: Obj, b: Obj, v: Ptr)
    requires a.Table? && b.Table? && (b.metatable == a.metatable || b.metatable == v)
    requires forall j :: 0 <= j < |b.slots| ==> b.slots[j] == v || b.slots[j] in a.slots
    ensures OneMore(a, b, v)
  {
    forall i | 0 <= i < |Direct(b)| ensures Direct(b)[i] == v || Direct(b)[i] in Direct(a) {
      assert Direct(a)[0] == a.metatable;
      if i > 0 && b.slots[i - 1] != v {
        var j :| 0 <= j < |a.slots| && a.slots[j] == b.slots[i - 1];
        assert Direct(a)[j + 1] == a.slots[j];
      }
    }
  }

  lemma KeysOfInv(s: Snap)
    requires Inv(s)
    ensures s.marked.Keys == s.objs.Keys
  {
  }

  /** An object is stored into another one that has the forward barrier. */
  method StoreForward(g: GlobalState, a: Ref, b: Obj, v: Ptr)
    requires Inv(g.Now()) && Held(g, a) && HeldPtr(g, v) && OneMore(g.objs[a], b, v)
    modifies g`objs, g`marked, g`gray
    ensures Inv(g.Now()) && g.objs == old(g.objs)[a := b]
  {
    ghost var s := g.Now();
    KeysOfInv(s);
    if KeepInvariant(g.gcstate) { CanMarkStored(s, a, b, v); }
    g.objs := g.objs[a := b];
    assert g.Now() == Stored(s, a, b);
    g.Barrier(a, v);
    ForwardStore(s, a, b, v, g.Now());
  }

  /** lua_setmetatable, for a table or a userdata. */
  method SetMetatable(g: GlobalState, o: Ref, mt: Ptr)
    requires Inv(g.Now()) && Held(g, o) && HeldPtr(g, mt) && (g.objs[o].Table? || g.objs[o].Udata?)
    modifies g`objs, g`marked, g`gray
    ensures Inv(g.Now())
    ensures g.objs == old(g.objs)[o := if old(g.objs)[o].Table? then Table(mt, old(g.objs)[o].slots)
                                       else Udata(mt, old(g.objs)[o].user)]
  {
    if g.objs[o].Table? {
      TableMore(g.objs[o], Table(mt, g.objs[o].slots), mt);
      StoreForward(g, o, Table(mt, g.objs[o].slots), mt);
    } else {
      StoreForward(g, o, Udata(mt, g.objs[o].user), mt);
    }
  }

  /** lua_setuservalue */
  method SetUserValue(g: GlobalState, o: Ref, v: Ptr)
    requires Inv(g.Now()) && Held(g, o) && HeldPtr(g, v) && g.objs[o].Udata?
    modifies g`objs, g`marked, g`gray
    ensures Inv(g.Now()) && g.objs == old(g.objs)[o := old(g.objs)[o].(user := v)]
  {
    StoreForward(g, o, g.objs[o].(user := v), v);
  }

  /** Upvalue `i` of a C closure (lua_replace, lua_setupvalue). */
  method SetCUpvalue(g: GlobalState, c: Ref, i: nat, v: Ptr)
    requires Inv(g.Now()) && Held(g, c) && HeldPtr(g, v) && g.objs[c].CClosure? && i < |g.objs[c].values|
    modifies g`objs, g`marked, g`gray
    ensures Inv(g.Now()) && g.objs == old(g.objs)[c := CClosure(old(g.objs)[c].values[i := v])]
  {
    StoreForward(g, c, CClosure(g.objs[c].values[i := v]), v);
  }

  /** A constant, a name or a nested prototype joins a prototype (addk, addprototype,
      registerlocalvar, newupvalue). */
  method AddPart(g: GlobalState, p: Ref, v: Ptr)
    requires Inv(g.Now()) && Held(g, p) && HeldPtr(g, v) && g.objs[p].Proto?
    modifies g`objs, g`marked, g`gray
    ensures Inv(g.Now()) && g.objs == old(g.objs)[p := old(g.objs)[p].(parts := old(g.objs)[p].parts + [v])]
  {
    StoreForward(g, p, g.objs[p].(parts := g.objs[p].parts + [v]), v);
  }

  ghost predicate SameRoots(s: Snap, s': Snap) {
    && s'.mainthread == s.mainthread && s'.running == s.running && s'.registry == s.registry && s'.mt == s.mt
    && s'.fixedgc == s.fixedgc
  }

  ghost predicate OnlyObjs(s: Snap, s': Snap, objs: map<Ref, Obj>) {
    SameRoots(s, s') && s'.ups == s.ups && s'.objs == objs
  }

  // ---- Stacks ----

  function StackOf(objs: map<Ref, Obj>, th: Ref): seq<Ptr> {
    if th in objs && objs[th].Thread? then objs[th].stack else []
  }

  /** Upvalues of the thread are open below level `n` only. */
  ghost predicate OpenBelow(g: GlobalState, th: Ref, n: nat)
    reads g
  {
    forall u :: u in g.ups && OpenIn(HeapOf(g.Now()), u, th) ==> g.ups[u].slot < n
  }

  /** A stack slot changes: no barrier. */
  method SetStack(g: GlobalState, th: Ref, i: nat, v: Ptr)
    requires Inv(g.Now()) && Held(g, th) && g.objs[th].Thread? && i < |g.objs[th].stack| && HeldPtr(g, v)
    modifies g`objs
    ensures Inv(g.Now()) && g.objs == old(g.objs)[th := old(g.objs)[th].(stack := old(g.objs)[th].stack[i := v])]
    ensures Live(g.Now()) == Live(old(g.Now()))
  {
    ghost var s := g.Now();
    ghost var stack := g.objs[th].stack[i := v];
    OpenWithin(s, th);
    assert forall j :: 0 <= j < |stack| ==> StackSlotOk(s, s.objs[th].stack, stack, j);
    StackStore(s, th, stack);
    g.objs := g.objs[th := g.objs[th].(stack := g.objs[th].stack[i := v])];
    assert g.Now() == WithStack(s, th, stack);
  }

  method Push(g: GlobalState, th: Ref, v: Ptr)
    requires Inv(g.Now()) && Held(g, th) && g.objs[th].Thread? && HeldPtr(g, v)
    modifies g`objs
    ensures Inv(g.Now()) && g.objs == old(g.objs)[th := old(g.objs)[th].(stack := old(g.objs)[th].stack + [v])]
    ensures Live(g.Now()) == Live(old(g.Now()))
  {
    ghost var s := g.Now();
    ghost var stack := g.objs[th].stack + [v];
    OpenWithin(s, th);
    assert forall j :: 0 <= j < |stack| ==> StackSlotOk(s, s.objs[th].stack, stack, j);
    StackStore(s, th, stack);
    g.objs := g.objs[th := g.objs[th].(stack := g.objs[th].stack + [v])];
    assert g.Now() == WithStack(s, th, stack);
  }

  function Resized(stack: seq<Ptr>, n: nat): (r: seq<Ptr>)
    ensures |r| == n && forall k :: 0 <= k < n ==> r[k] == if k < |stack| then stack[k] else None
  {
    if n <= |stack| then stack[..n] else stack + seq(n - |stack|, _ => None)
  }

  /** The top of the stack goes up, over nils, or down, but not below an open upvalue. */
  method SetTop(g: GlobalState, th: Ref, n: nat)
    requires Inv(g.Now()) && IsThread(HeapOf(g.Now()), th) && OpenBelow(g, th, n)
    modifies g`objs
    ensures Inv(g.Now()) && g.objs == old(g.objs)[th := old(g.objs)[th].(stack := Resized(old(g.objs)[th].stack, n))]
    ensures Live(g.Now()) == Live(old(g.Now()))
  {
    ghost var s := g.Now();
    ghost var stack := Resized(g.objs[th].stack, n);
    assert forall j :: 0 <= j < |stack| ==> StackSlotOk(s, s.objs[th].stack, stack, j);
    StackStore(s, th, stack);
    g.objs := g.objs[th := g.objs[th].(stack := Resized(g.objs[th].stack, n))];
    assert g.Now() == WithStack(s, th, stack);
  }

  /** The top goes down to `n` and `v` is pushed. */
  method PopAndPush(g: GlobalState, th: Ref, n: nat, v: Ptr)
    requires Inv(g.Now()) && Held(g, th) && g.objs[th].Thread? && n <= |g.objs[th].stack| && OpenBelow(g, th, n) &&
             HeldPtr(g, v)
    modifies g`objs
    ensures Inv(g.Now()) && g.objs == old(g.objs)[th := old(g.objs)[th].(stack := old(g.objs)[th].stack[..n] + [v])]
  {
    ghost var s := g.Now();
    ghost var stack := g.objs[th].stack[..n] + [v];
    assert forall j :: 0 <= j < |stack| ==> StackSlotOk(s, s.objs[th].stack, stack, j);
    StackStore(s, th, stack);
    g.objs := g.objs[th := g.objs[th].(stack := g.objs[th].stack[..n] + [v])];
    assert g.Now() == WithStack(s, th, stack);
  }

  lemma OpenWithin(s: Snap, th: Ref)
    requires Inv(s) && IsThread(HeapOf(s), th)
    ensures forall u :: u in s.ups && OpenIn(HeapOf(s), u, th) ==> s.ups[u].slot < |s.objs[th].stack|
  {
    forall u | u in s.ups && OpenIn(HeapOf(s), u, th) ensures s.ups[u].slot < |s.objs[th].stack| {
      assert OpenUpOk(HeapOf(s), u) && ThreadOk(HeapOf(s), th);
    }
  }

  // ---- Upvalues ----

  /** The upvalue has the value `v`, all others have the values that they had; only the
      upvalue or the stack slot that it stands for has changed. */
  ghost predicate UpvalueSet(s: Snap, s': Snap, u: Up, v: Ptr) {
    && s'.running == s.running && s'.registry == s.registry && s'.mt == s.mt && s'.fixedgc == s.fixedgc
    && UpValue(HeapOf(s'), u) == v && (forall w :: w in s.ups && w != u ==>
                                       UpValue(HeapOf(s'), w) == UpValue(HeapOf(s), w))
    && u in s.ups
    && if s.ups[u].Closed? then s'.objs == s.objs && s'.ups == s.ups[u := Closed(v)]
       else
         && IsThread(HeapOf(s), s.ups[u].thread) && s.ups[u].slot < |s.objs[s.ups[u].thread].stack| && s'.ups == s.ups
         && s'.objs == s.objs[s.ups[u].thread := Thread(s.objs[s.ups[u].thread].stack[s.ups[u].slot := v],
                                                        s.objs[s.ups[u].thread].openupval)]
  }

  /** OP_SETUPVAL and luaC_upvalbarrier: an open upvalue is a stack slot and needs no
      barrier, even if its thread is about to be freed. */
  method SetUpvalue(g: GlobalState, u: Up, v: Ptr)
    requires Inv(g.Now()) && u in g.ups && HeldPtr(g, v)
    modifies g`objs, g`ups, g`marked, g`gray
    ensures Inv(g.Now()) && UpvalueSet(old(g.Now()), g.Now(), u, v)
  {
    ghost var s := g.Now();
    if g.ups[u].Open? {
      OpenSlot(s, u);
      StoreThroughUpvalue(g, u, v);
    } else {
      StoreIntoClosed(g, u, v);
    }
  }

  method StoreIntoClosed(g: GlobalState, u: Up, v: Ptr)
    requires Inv(g.Now()) && u in g.ups && g.ups[u].Closed? && HeldPtr(g, v)
    modifies g`ups, g`marked, g`gray
    ensures Inv(g.Now()) && g.ups == old(g.ups)[u := Closed(v)]
  {
    ghost var s := g.Now();
    if KeepInvariant(g.gcstate) { CanMarkNow(s); ClosedCanMark(s, u, v); }
    g.ups := g.ups[u := Closed(v)];
    g.UpvalBarrier(u);
    ClosedStore(s, u, v, g.Now());
  }

  method StoreThroughUpvalue(g: GlobalState, u: Up, v: Ptr)
    requires Inv(g.Now()) && u in g.ups && g.ups[u].Open? && HeldPtr(g, v)
    requires IsThread(HeapOf(g.Now()), g.ups[u].thread) && g.ups[u].slot < |g.objs[g.ups[u].thread].stack|
    modifies g`objs
    ensures Inv(g.Now()) && UpvalueSet(old(g.Now()), g.Now(), u, v)
  {
    ghost var s := g.Now();
    var th, i := g.ups[u].thread, g.ups[u].slot;
    ghost var stack := g.objs[th].stack[i := v];
    OpenWithin(s, th);
    assert forall j :: 0 <= j < |stack| ==> StackSlotOk(s, s.objs[th].stack, stack, j);
    StackStore(s, th, stack);
    forall w | w in s.ups && w != u && OpenIn(HeapOf(s), w, th) ensures s.ups[w].slot != i {
      if s.ups[w].slot == i { OneUpvalueForSlot(HeapOf(s), u, w, th); }
    }
    g.objs := g.objs[th := g.objs[th].(stack := g.objs[th].stack[i := v])];
    assert g.Now() == WithStack(s, th, stack);
  }

  lemma OpenSlot(s: Snap, u: Up)
    requires Inv(s) && u in s.ups && s.ups[u].Open?
    ensures IsThread(HeapOf(s), s.ups[u].thread) && s.ups[u].slot < |s.objs[s.ups[u].thread].stack|
  {
    assert OpenUpOk(HeapOf(s), u) && ThreadOk(HeapOf(s), s.ups[u].thread);
  }

  lemma ClosedCanMark(s: Snap, u: Up, v: Ptr)
    requires Inv(s) && KeepInvariant(s.gcstate) && u in s.ups && s.ups[u].Closed? && PtrIn(v, Live(s))
    ensures ClosedSet(Heap(s.objs, s.ups[u := Closed(v)]), s.objs.Keys)
  {
    var s' := s.(ups := s.ups[u := Closed(v)]);
    CanMarkNow(s);
    ClosedStoreCommon(s, u, v, s');
  }

  /** luaF_findupval: the upvalue for a stack slot, new at `at` if there is none. */
  method FindUpval(g: GlobalState, th: Ref, level: nat, at: Up) returns (u: Up)
    requires Inv(g.Now()) && Held(g, th) && g.objs[th].Thread? && level < |g.objs[th].stack| && at !in g.ups
    modifies g`objs, g`ups, g`twups
    ensures Inv(g.Now()) && Live(g.Now()) == Live(old(g.Now()))
    ensures OpenIn(HeapOf(g.Now()), u, th) && g.ups[u].slot == level
    ensures u in old(g.ups) ==> g.Now() == old(g.Now())
    ensures u !in old(g.ups) ==> u == at && g.ups == old(g.ups)[u := Open(th, level, true)]
    ensures g.objs.Keys == old(g.objs.Keys) && forall x :: x in g.objs && x != th ==> g.objs[x] == old(g.objs)[x]
    ensures g.objs[th].Thread? && g.objs[th].stack == old(g.objs)[th].stack
  {
    ghost var s := g.Now();
    var l, i := g.objs[th].openupval, 0;
    ListOk(s, th);
    while i < |l| && g.ups[l[i]].slot >= level
      invariant 0 <= i <= |l| && g.Now() == s
      invariant forall j :: 0 <= j < i ==> g.ups[l[j]].slot > level
    {
      if g.ups[l[i]].slot == level {
        return l[i];
      }
      i := i + 1;
    }
    OpenedInv(s, th, level, i, at);
    g.ups := g.ups[at := Open(th, level, true)];
    g.objs := g.objs[th := g.objs[th].(openupval := l[..i] + [at] + l[i..])];
    if th !in g.twups {
      g.twups := [th] + g.twups;
    }
    assert g.Now() == Opened(s, th, level, i, at);
    u := at;
  }

  lemma ListOk(s: Snap, th: Ref)
    requires Inv(s) && IsThread(HeapOf(s), th)
    ensures OpenList(HeapOf(s), th, s.objs[th].openupval, |s.objs[th].stack|)
  {
    assert ThreadOk(HeapOf(s), th);
  }

  /** luaF_close, called by the program: exactly the upvalues from the level up are
      closed, and none of them changes its value. */
  method Close(g: GlobalState, th: Ref, level: nat)
    requires Inv(g.Now()) && IsThread(HeapOf(g.Now()), th)
    modifies g`objs, g`ups, g`marked, g`gray
    ensures Inv(g.Now()) && ClosedUps(old(HeapOf(g.Now())), HeapOf(g.Now()), th)
    ensures ClosedFrom(old(HeapOf(g.Now())), HeapOf(g.Now()), th, level)
  {
    ghost var s := g.Now();
    UpvaluesOfInv(s);
    if KeepInvariant(g.gcstate) { CanMarkNow(s); }
    g.CloseUpvals(th, level);
    ClosedInv(s, g.Now(), th);
  }

  lemma UpvaluesOfInv(s: Snap)
    requires Inv(s)
    ensures UpvaluesOk(HeapOf(s))
  {
  }

  // ---- New objects, roots ----

  /** A new object, with references to what the program holds; `x` is its address. */
  method Create(g: GlobalState, x: Ref, o: Obj)
    requires Inv(g.Now()) && x !in g.objs && PointsInto(HeapOf(g.Now()), o, Live(g.Now())) &&
             ClosureOk(HeapOf(g.Now()), o)
    requires ProtoFits(g.objs, o) && CacheOf(o) == None && (o.Thread? ==> o.openupval == [])
    modifies g`objs, g`marked, g`allgc, g`sweepgc
    ensures Inv(g.Now()) && g.objs == old(g.objs)[x := o] && Live(g.Now()) == Live(old(g.Now())) + {x}
  {
    ghost var s := g.Now();
    CreatedInv(s, x, o);
    g.NewObj(x, o);
    assert g.Now() == Created(s, x, o);
  }

  method SetRegistry(g: GlobalState, v: Ptr)
    requires Inv(g.Now()) && HeldPtr(g, v)
    modifies g`registry
    ensures Inv(g.Now()) && g.registry == v
  {
    ghost var s := g.Now();
    g.registry := v;
    RootsHeld(s, g.Now());
  }

  method SetTypeMetatable(g: GlobalState, i: nat, v: Ptr)
    requires Inv(g.Now()) && HeldPtr(g, v) && i < |g.mt|
    modifies g`mt
    ensures Inv(g.Now()) && g.mt == old(g.mt)[i := v]
  {
    ghost var s := g.Now();
    g.mt := g.mt[i := v];
    RootsHeld(s, g.Now());
  }

  /** Another thread runs (lua_resume and back). */
  method SwitchTo(g: GlobalState, th: Ref)
    requires Inv(g.Now()) && Held(g, th) && g.objs[th].Thread?
    modifies g`running
    ensures Inv(g.Now()) && g.running == th
  {
    ghost var s := g.Now();
    g.running := th;
    RootsHeld(s, g.Now());
  }

  lemma RootsHeld(s: Snap, s': Snap)
    requires Inv(s) && s' == s.(running := s'.running, registry := s'.registry, mt := s'.mt)
    requires s'.running == s.running || (IsThread(HeapOf(s), s'.running) && s'.running in Live(s))
    requires s'.registry == s.registry || PtrIn(s'.registry, Live(s))
    requires |s'.mt| == |s.mt|
    requires forall i :: 0 <= i < |s.mt| ==> s'.mt[i] == s.mt[i] || PtrIn(s'.mt[i], Live(s))
    ensures Inv(s')
  {
    RootsAreLive(s);
    forall i | 0 <= i < |s'.mt| ensures PtrIn(s'.mt[i], Live(s)) {
      assert PtrIn(s.mt[i], Live(s));
    }
    PointersMarked(s'.registry, s'.mt, Live(s));
    RootsChanged(s, s');
  }

  lemma RootsAreLive(s: Snap)
    requires Inv(s)
    ensures s.mainthread in Live(s) && s.running in Live(s) && PtrIn(s.registry, Live(s)) && AllIn(s.mt, Live(s))
    ensures s.running in s.objs && s.objs[s.running].Thread?
  {
    var ps := [s.registry] + s.mt;
    assert PtrSet(ps) <= Live(s);
    assert ps[0] == s.registry;
    assert s.registry.Some? ==> ps[0].value in PtrSet(ps);
    forall i | 0 <= i < |s.mt| ensures PtrIn(s.mt[i], Live(s)) {
      assert ps[i + 1] == s.mt[i];
      assert s.mt[i].Some? ==> ps[i + 1].value in PtrSet(ps);
    }
  }

  // ---- Closures ----

  /** The upvalue that a description asks for: the one open at a slot of the running
      function, or one of the enclosing closure. */
  predicate Installs(h: Heap, th: Ref, base: nat, encup: seq<Up>, d: Upvaldesc, u: Up) {
    if d.instack then OpenIn(h, u, th) && h.ups[u].slot == base + d.idx
    else d.idx < |encup| && u == encup[d.idx]
  }

  predicate InstallsAll(h: Heap, th: Ref, base: nat, encup: seq<Up>, ds: seq<Upvaldesc>, us: seq<Up>) {
    |us| == |ds| && forall i :: 0 <= i < |ds| ==> Installs(h, th, base, encup, ds[i], us[i])
  }

  /** The descriptions fit the running function and its closure. */
  predicate DescsFit(h: Heap, th: Ref, base: nat, encup: seq<Up>, ds: seq<Upvaldesc>) {
    && IsThread(h, th)
    && (forall i :: 0 <= i < |encup| ==> encup[i] in h.ups)
    && (forall i :: 0 <= i < |ds| ==> if ds[i].instack then base + ds[i].idx < |h.objs[th].stack|
        else ds[i].idx < |encup|)
  }

  /** There is only one closure that fits, as far as its upvalues are concerned. */
  lemma InstalledUnique(h: Heap, th: Ref, base: nat, encup: seq<Up>, ds: seq<Upvaldesc>, us: seq<Up>, us': seq<Up>)
    requires UpvaluesOk(h) && InstallsAll(h, th, base, encup, ds, us) && InstallsAll(h, th, base, encup, ds, us')
    ensures us == us'
  {
    forall i | 0 <= i < |ds| ensures us[i] == us'[i] {
      assert Installs(h, th, base, encup, ds[i], us[i]) && Installs(h, th, base, encup, ds[i], us'[i]);
      if ds[i].instack { OneUpvalueForSlot(h, us[i], us'[i], th); }
    }
  }

  /** Where an upvalue points: into a stack, or to its own value. */
  datatype Place = Slot(th: Ref, slot: nat) | Own(u: Up)

  function PlaceOf(h: Heap, u: Up): Place {
    if u in h.ups && h.ups[u].Open? then Slot(h.ups[u].thread, h.ups[u].slot) else Own(u)
  }

  /** Upvalues at the same place are the same upvalue. */
  lemma SamePlace(h: Heap, u: Up, u': Up)
    requires UpvaluesOk(h) && PlaceOf(h, u) == PlaceOf(h, u')
    ensures u == u'
  {
    if u in h.ups && h.ups[u].Open? { OneUpvalueForSlot(h, u, u', h.ups[u].thread); }
  }

  /** getcached: the closure remembered by the prototype, which was made from it, if
      it has exactly the upvalues that a new one would get. */
  method GetCached(g: GlobalState, p: Ref, th: Ref, encup: seq<Up>, base: nat) returns (c: Ptr)
    requires Inv(g.Now()) && Held(g, p) && g.objs[p].Proto? &&
             DescsFit(HeapOf(g.Now()), th, base, encup, g.objs[p].upvalues)
    ensures HeldPtr(g, c) && CacheFits(g.objs, p)
    ensures c.Some? <==> g.objs[p].cache.Some? &&
                         InstallsAll(HeapOf(g.Now()), th, base, encup, g.objs[p].upvalues,
                                     g.objs[g.objs[p].cache.value].upvals)
    ensures c.Some? ==> c == g.objs[p].cache
  {
    ghost var h := HeapOf(g.Now());
    CacheIsLive(g.Now(), p);
    c := g.objs[p].cache;
    if c == None {
      return;
    }
    var uv, us, i := g.objs[p].upvalues, g.objs[c.value].upvals, 0;
    while i < |uv|
      invariant 0 <= i <= |uv|
      invariant forall j :: 0 <= j < i ==> Installs(h, th, base, encup, uv[j], us[j])
    {
      var v := if uv[i].instack then Slot(th, base + uv[i].idx) else PlaceOf(Heap(g.objs, g.ups), encup[uv[i].idx]);
      if PlaceOf(Heap(g.objs, g.ups), us[i]) != v {
        return None;
      }
      if !uv[i].instack { SamePlace(h, us[i], encup[uv[i].idx]); }
      i := i + 1;
    }
  }

  lemma CacheIsLive(s: Snap, p: Ref)
    requires Inv(s) && p in Live(s) && p in s.objs
    ensures PtrIn(CacheOf(s.objs[p]), Live(s)) && CacheFits(s.objs, p) && UpvaluesOk(HeapOf(s))
  {
    assert StaysIn(HeapOf(s), p, Live(s));
  }

  /** One upvalue of a new closure; `at` and what follows are unused. */
  method InstallOne(g: GlobalState, th: Ref, encup: seq<Up>, base: nat, d: Upvaldesc, at: Up) returns (u: Up, next: Up)
    requires Inv(g.Now()) && Held(g, th) && g.objs[th].Thread?
    requires if d.instack then base + d.idx < |g.objs[th].stack| else d.idx < |encup| && encup[d.idx] in g.ups
    requires forall w :: w in g.ups ==> w < at
    modifies g`objs, g`ups, g`twups
    ensures Inv(g.Now()) && Live(g.Now()) == Live(old(g.Now())) && OnlyThread(old(g.objs), g.objs, th)
    ensures Installs(HeapOf(g.Now()), th, base, encup, d, u) && u in g.ups
    ensures UpvalsKept(old(g.ups), g.ups) && NewUpsIn(old(g.ups), g.ups, [u]) && forall w :: w in g.ups ==> w < next
  {
    next := at;
    if d.instack {
      u := FindUpval(g, th, base + d.idx, at);
      if u == at { next := at + 1; }
    } else {
      u := encup[d.idx];
    }
  }

  ghost predicate UpvalsKept(ups: map<Up, UpVal>, ups': map<Up, UpVal>) {
    forall u :: u in ups ==> u in ups' && ups'[u] == ups[u]
  }

  /** The upvalues of a new closure; new ones are made at `at`, `at` + 1, ... */
  method CollectUpvalues(g: GlobalState, th: Ref, encup: seq<Up>, base: nat, uv: seq<Upvaldesc>, at: Up)
    returns (us: seq<Up>)
    requires Inv(g.Now()) && Held(g, th) && DescsFit(Heap(g.objs, g.ups), th, base, encup, uv)
    requires forall u :: u in g.ups ==> u < at
    modifies g`objs, g`ups, g`twups
    ensures Inv(g.Now()) && Live(g.Now()) == Live(old(g.Now())) && OnlyThread(old(g.objs), g.objs, th)
    ensures InstallsAll(Heap(g.objs, g.ups), th, base, encup, uv, us)
    ensures UpvalsKept(old(g.ups), g.ups) && NewUpsIn(old(g.ups), g.ups, us)
  {
    ghost var objs0, ups0, live := g.objs, g.ups, Live(g.Now());
    us := [];
    var i, next := 0, at;
    while i < |uv|
      invariant 0 <= i <= |uv| && Inv(g.Now()) && Live(g.Now()) == live && OnlyThread(objs0, g.objs, th)
      invariant InstallsAll(Heap(g.objs, g.ups), th, base, encup, uv[..i], us)
      invariant UpvalsKept(ups0, g.ups) && NewUpsIn(ups0, g.ups, us) && forall u :: u in g.ups ==> u < next
    {
      ghost var h := Heap(g.objs, g.ups);
      var u;
      u, next := InstallOne(g, th, encup, base, uv[i], next);
      OneMoreInstalled(h, Heap(g.objs, g.ups), th, base, encup, uv, i, us, u);
      us := us + [u];
      i := i + 1;
    }
    assert uv[..i] == uv;
  }

  lemma OneMoreInstalled(h: Heap, h': Heap, th: Ref, base: nat, encup: seq<Up>, ds: seq<Upvaldesc>, i: nat, us: seq<Up>,
                         u: Up)
    requires i < |ds| && InstallsAll(h, th, base, encup, ds[..i], us) && UpvalsKept(h.ups, h'.ups)
    requires Installs(h', th, base, encup, ds[i], u)
    ensures InstallsAll(h', th, base, encup, ds[..i + 1], us + [u])
  {
    assert ds[..i + 1] == ds[..i] + [ds[i]];
    forall j | 0 <= j < i ensures Installs(h', th, base, encup, ds[j], us[j]) {
      assert Installs(h, th, base, encup, ds[..i][j], us[j]);
    }
  }

  /** Only the list of open upvalues of one thread differs. */
  ghost predicate OnlyThread(objs: map<Ref, Obj>, objs': map<Ref, Obj>, th: Ref) {
    && objs'.Keys == objs.Keys && (forall x :: x in objs && x != th ==> objs'[x] == objs[x])
    && th in objs && objs[th].Thread? && objs'[th].Thread? && objs'[th].stack == objs[th].stack
  }

  /** A new closure `at` is on the stack, with the upvalues that its prototype `p` asks
      for; the prototype remembers it unless it is black. Everything else is as before. */
  ghost predicate NewClosure(s: Snap, s': Snap, p: Ref, encup: seq<Up>, base: nat, at: Ref) {
    exists us :: NewClosureWith(s, s', p, encup, base, at, us)
  }

  ghost predicate NewClosureWith(s: Snap, s': Snap, p: Ref, encup: seq<Up>, base: nat, at: Ref, us: seq<Up>) {
    && SameRoots(s, s') && p in s.objs && s.objs[p].Proto?
    && s'.objs.Keys == s.objs.Keys + {at} && s'.objs[at] == LClosure(Some(p), us)
    && InstallsAll(HeapOf(s'), s.running, base, encup, s.objs[p].upvalues, us)
    && StackOf(s'.objs, s.running) == StackOf(s.objs, s.running) + [Some(at)]
    && s'.objs[p] == (if p in s.marked && s.marked[p].Black? then s.objs[p] else s.objs[p].(cache := Some(at)))
    && (forall x :: x in s.objs && x != p && x != s.running ==> s'.objs[x] == s.objs[x])
    && UpvalsKept(s.ups, s'.ups) && NewUpsIn(s.ups, s'.ups, us)
  }

  ghost predicate NewUpsIn(ups: map<Up, UpVal>, ups': map<Up, UpVal>, us: seq<Up>) {
    forall u :: u in ups' && u !in ups ==> u in us
  }

  /** pushclosure: a new closure of the running thread, remembered by its prototype
      unless the collector has already looked at that. */
  method PushClosure(g: GlobalState, p: Ref, encup: seq<Up>, base: nat, x: Ref, at: Up)
    requires Inv(g.Now()) && Held(g, p) && g.objs[p].Proto? && x !in g.objs
    requires DescsFit(HeapOf(g.Now()), g.running, base, encup, g.objs[p].upvalues)
    requires forall i :: 0 <= i < |encup| ==> PtrIn(UpValue(HeapOf(g.Now()), encup[i]), Live(g.Now()))
    requires forall u :: u in g.ups ==> u < at
    modifies g`objs, g`ups, g`twups, g`marked, g`allgc, g`sweepgc
    ensures Inv(g.Now()) && NewClosure(old(g.Now()), g.Now(), p, encup, base, x)
  {
    ghost var s := g.Now();
    RootsAreLive(s);
    var th := g.running;
    var us := CollectUpvalues(g, th, encup, base, g.objs[p].upvalues, at);
    ghost var s1 := g.Now();
    NewClosureFits(s, s1, p, th, base, encup, us);
    PushNewClosure(g, p, th, us, x);
    InstalledStill(HeapOf(s1), HeapOf(g.Now()), th, base, encup, s.objs[p].upvalues, us);
    ClosureMade(s, s1, g.Now(), p, encup, base, x, us);
  }

  /** The closure itself, on the stack and in the prototype. */
  method PushNewClosure(g: GlobalState, p: Ref, th: Ref, us: seq<Up>, x: Ref)
    requires Inv(g.Now()) && Held(g, p) && g.objs[p].Proto? && Held(g, th) && g.objs[th].Thread? && x !in g.objs
    requires PointsInto(HeapOf(g.Now()), LClosure(Some(p), us), Live(g.Now())) &&
             ClosureOk(HeapOf(g.Now()), LClosure(Some(p), us))
    requires |us| == |g.objs[p].upvalues|
    modifies g`objs, g`marked, g`allgc, g`sweepgc
    ensures Inv(g.Now())
    ensures g.objs == WithClosure(old(g.objs), p, th, us, x, p in old(g.marked) && old(g.marked)[p].Black?)
  {
    CreateAndPush(g, th, x, LClosure(Some(p), us));
    Remember(g, p, x);
  }

  lemma ClosureMade(s: Snap, s1: Snap, s': Snap, p: Ref, encup: seq<Up>, base: nat, x: Ref, us: seq<Up>)
    requires p in s.objs && s.objs[p].Proto? && OnlyThread(s.objs, s1.objs, s.running) && x !in s.objs
    requires UpvalsKept(s.ups, s1.ups) && NewUpsIn(s.ups, s1.ups, us)
    requires SameRoots(s, s') && s'.ups == s1.ups
    requires s'.objs == WithClosure(s1.objs, p, s.running, us, x, p in s.marked && s.marked[p].Black?)
    requires InstallsAll(HeapOf(s'), s.running, base, encup, s.objs[p].upvalues, us)
    ensures NewClosure(s, s', p, encup, base, x)
  {
    assert NewClosureWith(s, s', p, encup, base, x, us);
  }

  /** The objects with a new closure on the stack of a thread. */
  function WithClosure(objs: map<Ref, Obj>, p: Ref, th: Ref, us: seq<Up>, x: Ref, black: bool): map<Ref, Obj> {
    if !IsThread(Heap(objs, map[]), th) || p !in objs || !objs[p].Proto? then objs
    else
      var objs1 := objs[x := LClosure(Some(p), us)][th := objs[th].(stack := objs[th].stack + [Some(x)])];
      if black then objs1 else objs1[p := objs[p].(cache := Some(x))]
  }

  lemma InstalledStill(h: Heap, h': Heap, th: Ref, base: nat, encup: seq<Up>, ds: seq<Upvaldesc>, us: seq<Up>)
    requires InstallsAll(h, th, base, encup, ds, us) && h'.ups == h.ups
    ensures InstallsAll(h', th, base, encup, ds, us)
  {
    forall i | 0 <= i < |ds| ensures Installs(h', th, base, encup, ds[i], us[i]) {
      assert Installs(h, th, base, encup, ds[i], us[i]);
    }
  }

  /** A new object on top of the stack of a thread. */
  method CreateAndPush(g: GlobalState, th: Ref, x: Ref, o: Obj)
    requires Inv(g.Now()) && x !in g.objs && PointsInto(HeapOf(g.Now()), o, Live(g.Now())) &&
             ClosureOk(HeapOf(g.Now()), o)
    requires ProtoFits(g.objs, o) && CacheOf(o) == None && (o.Thread? ==> o.openupval == [])
    requires Held(g, th) && g.objs[th].Thread?
    modifies g`objs, g`marked, g`allgc, g`sweepgc
    ensures Inv(g.Now()) && Live(g.Now()) == Live(old(g.Now())) + {x} && g.marked == old(g.marked)[x := g.currentwhite]
    ensures g.objs == old(g.objs)[x := o][th := old(g.objs)[th].(stack := old(g.objs)[th].stack + [Some(x)])]
  {
    ghost var s := g.Now();
    CreatedInv(s, x, o);
    g.NewObj(x, o);
    assert g.Now() == Created(s, x, o);
    Push(g, th, Some(x));
  }

  /** The prototype remembers its new closure, if it is not black. */
  method Remember(g: GlobalState, p: Ref, x: Ref)
    requires Inv(g.Now()) && Held(g, p) && g.objs[p].Proto? && Held(g, x) && p in g.marked && IsClosureOf(g.objs, x, p)
    modifies g`objs
    ensures Inv(g.Now())
    ensures g.objs == if g.marked[p].Black? then old(g.objs) else old(g.objs)[p := old(g.objs)[p].(cache := Some(x))]
  {
    ghost var s := g.Now();
    if !g.marked[p].Black? {
      CacheStored(s, p, Some(x));
      g.objs := g.objs[p := g.objs[p].(cache := Some(x))];
      assert g.Now() == Stored(s, p, s.objs[p].(cache := Some(x)));
    }
  }

  lemma NewClosureFits(s: Snap, s1: Snap, p: Ref, th: Ref, base: nat, encup: seq<Up>, us: seq<Up>)
    requires Inv(s) && Inv(s1) && p in Live(s) && p in s.objs && s.objs[p].Proto? && Live(s1) == Live(s)
    requires OnlyThread(s.objs, s1.objs, th) && th in Live(s1)
    requires forall u :: u in s.ups ==> u in s1.ups && s1.ups[u] == s.ups[u]
    requires forall i :: 0 <= i < |encup| ==> encup[i] in s.ups && PtrIn(UpValue(HeapOf(s), encup[i]), Live(s))
    requires InstallsAll(HeapOf(s1), th, base, encup, s.objs[p].upvalues, us)
    ensures PointsInto(HeapOf(s1), LClosure(Some(p), us), Live(s1)) && ClosureOk(HeapOf(s1), LClosure(Some(p), us))
  {
    forall i | 0 <= i < |us| ensures us[i] in s1.ups && PtrIn(UpValue(HeapOf(s1), us[i]), Live(s1)) {
      var d := s.objs[p].upvalues[i];
      assert Installs(HeapOf(s1), th, base, encup, d, us[i]);
      if d.instack {
        LiveSlot(s1, th, us[i]);
      } else {
        assert UpValue(HeapOf(s1), us[i]) == UpValue(HeapOf(s), us[i]) by {
          assert s.ups[us[i]].Open? ==> OpenUpOk(HeapOf(s), us[i]);
        }
      }
    }
  }

  lemma LiveSlot(s: Snap, th: Ref, u: Up)
    requires Inv(s) && th in Live(s) && OpenIn(HeapOf(s), u, th)
    ensures PtrIn(UpValue(HeapOf(s), u), Live(s))
  {
    assert StaysIn(HeapOf(s), th, Live(s));
    assert OpenUpOk(HeapOf(s), u) && ThreadOk(HeapOf(s), th);
    assert PtrIn(Direct(s.objs[th])[s.ups[u].slot], Live(s));
  }
}
