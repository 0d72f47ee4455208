/** Collectable objects, upvalues and what can be reached from where
    (src/lobject.h, src/lfunc.h, src/lgc.c). */
module GcHeap {
  import opened LuaValues

  type Ref = nat
  type Up = nat

  /** A slot: a collectable object, or any other value. */
  type Ptr = Option<Ref>

  /** Where a closure finds an upvalue: in a register of the enclosing function, or
      among its upvalues. */
  datatype Upvaldesc = Upvaldesc(instack: bool, idx: nat)

  /** The collectable objects. `slots` are the array, the keys and the values of a
      table; `parts` the constants, names and nested prototypes of a prototype;
      `stack` is the live part of the stack of a thread. */
  datatype Obj =
    | Str
    | Udata(metatable: Ptr, user: Ptr)
    | Table(metatable: Ptr, slots: seq<Ptr>)
    | LClosure(proto: Ptr, upvals: seq<Up>)
    | CClosure(values: seq<Ptr>)
    | Thread(stack: seq<Ptr>, openupval: seq<Up>)
    | Proto(parts: seq<Ptr>, cache: Ptr, upvalues: seq<Upvaldesc>)

  /** An open upvalue lives in a stack slot, a closed one holds its own value. */
  datatype UpVal = Open(thread: Ref, slot: nat, touched: bool) | Closed(value: Ptr)

  datatype Heap = Heap(objs: map<Ref, Obj>, ups: map<Up, UpVal>)

  /** The strong pointers in the object itself. */
  function Direct(o: Obj): seq<Ptr> {
    match o
    case Str => []
    case Udata(mt, user) => [mt, user]
    case Table(mt, slots) => [mt] + slots
    case LClosure(p, _) => [p]
    case CClosure(values) => values
    case Thread(stack, _) => stack
    case Proto(parts, _, _) => parts
  }

  /** The closure that a prototype remembers, which does not keep it alive. */
  function CacheOf(o: Obj): Ptr {
    if o.Proto? then o.cache else None
  }

  function UpvalsOf(o: Obj): seq<Up> {
    if o.LClosure? then o.upvals else []
  }

  /** The value seen through an upvalue. */
  function UpValue(h: Heap, u: Up): Ptr {
    if u !in h.ups then None
    else match h.ups[u]
      case Closed(v) => v
      case Open(th, slot, _) =>
        if th in h.objs && h.objs[th].Thread? && slot < |h.objs[th].stack| then h.objs[th].stack[slot] else None
  }

  /** `a` refers to `b` and keeps it alive. */
  ghost predicate Edge(h: Heap, a: Ref, b: Ref) {
    && a in h.objs
    && (Some(b) in Direct(h.objs[a]) || exists u :: u in UpvalsOf(h.objs[a]) && UpValue(h, u) == Some(b))
  }

  ghost predicate IsPath(h: Heap, roots: set<Ref>, p: seq<Ref>) {
    && p != [] && p[0] in roots
    && forall i :: 0 <= i < |p| - 1 ==> Edge(h, p[i], p[i + 1])
  }

  /** The program can get to `x` from one of the roots. */
  ghost predicate Reachable(h: Heap, roots: set<Ref>, x: Ref) {
    exists p :: IsPath(h, roots, p) && p[|p| - 1] == x
  }

  predicate PtrIn(p: Ptr, s: set<Ref>) {
    p.Some? ==> p.value in s
  }

  predicate AllIn(ps: seq<Ptr>, s: set<Ref>) {
    forall i :: 0 <= i < |ps| ==> PtrIn(ps[i], s)
  }

  predicate UpsIn(h: Heap, us: seq<Up>, s: set<Ref>) {
    forall i :: 0 <= i < |us| ==> PtrIn(UpValue(h, us[i]), s)
  }

  /** Everything that the object refers to is in `s`, the cache included. */
  predicate PointsInto(h: Heap, o: Obj, s: set<Ref>) {
    AllIn(Direct(o), s) && UpsIn(h, UpvalsOf(o), s) && PtrIn(CacheOf(o), s)
  }

  /** The closure `c` was made from the prototype `p`. */
  predicate IsClosureOf(objs: map<Ref, Obj>, c: Ref, p: Ref) {
    && c in objs && objs[c].LClosure? && objs[c].proto == Some(p)
    && p in objs && objs[p].Proto? && |objs[c].upvals| == |objs[p].upvalues|
  }

  /** What a prototype remembers is a closure made from it. */
  predicate CacheFits(objs: map<Ref, Obj>, p: Ref) {
    p in objs && objs[p].Proto? && objs[p].cache.Some? ==> IsClosureOf(objs, objs[p].cache.value, p)
  }

  /** The prototype of a closure is one. */
  predicate ProtoFits(objs: map<Ref, Obj>, o: Obj) {
    o.LClosure? && o.proto.Some? ==> o.proto.value in objs && objs[o.proto.value].Proto?
  }

  predicate StaysIn(h: Heap, a: Ref, s: set<Ref>) {
    a in h.objs && PointsInto(h, h.objs[a], s) && CacheFits(h.objs, a) && ProtoFits(h.objs, h.objs[a])
  }

  predicate ClosedSet(h: Heap, s: set<Ref>) {
    forall a {:trigger StaysIn(h, a, s)} :: a in s ==> StaysIn(h, a, s)
  }

  /** What can be reached stays within any closed set with the roots. */
  lemma {:induction false} ReachableStays(h: Heap, roots: set<Ref>, s: set<Ref>, p: seq<Ref>)
    requires ClosedSet(h, s) && roots <= s && IsPath(h, roots, p)
    ensures p[|p| - 1] in s
  {
    if |p| > 1 {
      var q := p[..|p| - 1];
      assert forall i :: 0 <= i < |q| - 1 ==> Edge(h, p[i], p[i + 1]) ==> Edge(h, q[i], q[i + 1]);
      ReachableStays(h, roots, s, q);
      EdgeStays(h, s, p[|p| - 2], p[|p| - 1]);
    }
  }

  lemma EdgeStays(h: Heap, s: set<Ref>, a: Ref, b: Ref)
    requires ClosedSet(h, s) && a in s && Edge(h, a, b)
    ensures b in s
  {
    assert StaysIn(h, a, s);
    var o := h.objs[a];
    if Some(b) in Direct(o) {
      var i :| 0 <= i < |Direct(o)| && Direct(o)[i] == Some(b);
      assert PtrIn(Direct(o)[i], s);
    } else {
      var u :| u in UpvalsOf(o) && UpValue(h, u) == Some(b);
      var i :| 0 <= i < |UpvalsOf(o)| && UpvalsOf(o)[i] == u;
      assert PtrIn(UpValue(h, UpvalsOf(o)[i]), s);
    }
  }

  // ---- Open upvalues ----

  predicate IsThread(h: Heap, th: Ref) {
    th in h.objs && h.objs[th].Thread?
  }

  /** A thread with open upvalues. */
  predicate HasOpen(h: Heap, th: Ref) {
    IsThread(h, th) && h.objs[th].openupval != []
  }

  /** Upvalue `u` is open in thread `th`. */
  predicate OpenIn(h: Heap, u: Up, th: Ref) {
    u in h.ups && h.ups[u].Open? && h.ups[u].thread == th
  }

  /** The list of open upvalues goes down the stack, with one for each slot. */
  predicate OpenList(h: Heap, th: Ref, l: seq<Up>, size: nat) {
    && (forall i :: 0 <= i < |l| ==> OpenIn(h, l[i], th) && h.ups[l[i]].slot < size)
    && (forall i, j :: 0 <= i < j < |l| ==> h.ups[l[i]].slot > h.ups[l[j]].slot)
  }

  predicate ThreadOk(h: Heap, th: Ref)
    requires IsThread(h, th)
  {
    OpenList(h, th, h.objs[th].openupval, |h.objs[th].stack|)
  }

  predicate OpenUpOk(h: Heap, u: Up)
    requires u in h.ups && h.ups[u].Open?
  {
    IsThread(h, h.ups[u].thread) && u in h.objs[h.ups[u].thread].openupval
  }

  predicate ClosureOk(h: Heap, o: Obj) {
    forall i :: 0 <= i < |UpvalsOf(o)| ==> UpvalsOf(o)[i] in h.ups
  }

  /** Every thread lists its open upvalues, every open upvalue is on the list of
      its thread, every closure has its upvalues. */
  ghost predicate UpvaluesOk(h: Heap) {
    && (forall th {:trigger ThreadOk(h, th)} :: IsThread(h, th) ==> ThreadOk(h, th))
    && (forall u {:trigger OpenUpOk(h, u)} :: u in h.ups && h.ups[u].Open? ==> OpenUpOk(h, u))
    && (forall a {:trigger ClosureOk(h, h.objs[a])} :: a in h.objs ==> ClosureOk(h, h.objs[a]))
  }

  /** At most one upvalue for each stack slot. */
  lemma OneUpvalueForSlot(h: Heap, u: Up, u': Up, th: Ref)
    requires UpvaluesOk(h) && OpenIn(h, u, th) && OpenIn(h, u', th) && h.ups[u].slot == h.ups[u'].slot
    ensures u == u'
  {
    assert OpenUpOk(h, u) && OpenUpOk(h, u') && ThreadOk(h, th);
    var l := h.objs[th].openupval;
    var i :| 0 <= i < |l| && l[i] == u;
    var j :| 0 <= j < |l| && l[j] == u';
  }
}
