/** What the program finds in the fields of the objects that it can get at
    (src/lgc.c, src/lobject.h). */
module GcFields {
  import opened LuaValues
  import opened GcHeap
  import opened GcState
  import opened GcGarbage

  /** What the value refers to exists, is not condemned, and can be reached in turn. */
  ghost predicate Usable(s: Snap, v: Ptr) {
    v.Some? ==> v.value in s.objs && v.value in s.marked && s.marked[v.value] != Ow(s) && Accessible(s, v.value)
  }

  ghost predicate AllUsable(s: Snap, vs: seq<Ptr>) {
    forall i :: 0 <= i < |vs| ==> Usable(s, vs[i])
  }

  /** The upvalue exists, with its stack slot if it is open. */
  ghost predicate UpUsable(s: Snap, u: Up) {
    && u in s.ups
    && match s.ups[u]
       case Closed(v) => Usable(s, v)
       case Open(th, i, _) =>
         th in s.objs && s.objs[th].Thread? && i < |s.objs[th].stack| && Usable(s, s.objs[th].stack[i])
  }

  /** Every field of the object can be used: the closures' prototypes are prototypes,
      and what a prototype remembers is a closure of it. */
  ghost predicate FieldsUsable(s: Snap, x: Ref)
    requires x in s.objs
  {
    match s.objs[x]
    case Str => true
    case Udata(mt, user) => Usable(s, mt) && Usable(s, user)
    case Table(mt, slots) => Usable(s, mt) && AllUsable(s, slots)
    case LClosure(p, us) =>
      && Usable(s, p) && (p.Some? ==> s.objs[p.value].Proto?)
      && forall i :: 0 <= i < |us| ==> UpUsable(s, us[i])
    case CClosure(values) => AllUsable(s, values)
    case Thread(stack, _) => AllUsable(s, stack)
    case Proto(parts, cache, ds) =>
      && AllUsable(s, parts)
      && (cache.Some? ==>
            && cache.value in s.objs && cache.value in s.marked && s.marked[cache.value] != Ow(s)
            && s.objs[cache.value].LClosure? && s.objs[cache.value].proto == Some(x)
            && |s.objs[cache.value].upvals| == |ds|)
  }

  /** Whatever the program can get at, it can use every field of it. */
  lemma AccessibleFields(s: Snap, x: Ref)
    requires Inv(s) && Accessible(s, x)
    ensures x in s.objs && Usable(s, Some(x)) && FieldsUsable(s, x)
  {
    AccessibleIsLive(s, x);
    var h := HeapOf(s);
    assert StaysIn(h, x, Live(s));
    assert ClosureOk(h, s.objs[x]);
    var ps, us := Direct(s.objs[x]), UpvalsOf(s.objs[x]);
    forall i | 0 <= i < |ps| ensures Usable(s, ps[i]) {
      if ps[i].Some? { assert Some(ps[i].value) in ps; EdgeUsable(s, x, ps[i].value); }
    }
    forall i | 0 <= i < |us| ensures UpUsable(s, us[i]) {
      assert us[i] in h.ups && (h.ups[us[i]].Open? ==> OpenUpOk(h, us[i]));
      if h.ups[us[i]].Open? { assert ThreadOk(h, h.ups[us[i]].thread); }
      var v := UpValue(h, us[i]);
      if v.Some? { EdgeUsable(s, x, v.value); }
    }
    FieldsOfPointers(s, x);
  }

  lemma EdgeUsable(s: Snap, x: Ref, y: Ref)
    requires Inv(s) && Accessible(s, x) && Edge(HeapOf(s), x, y)
    ensures Usable(s, Some(y))
  {
    OneFurther(HeapOf(s), Roots(s), x, y);
    AccessibleIsLive(s, y);
  }

  lemma FieldsOfPointers(s: Snap, x: Ref)
    requires x in s.objs && StaysIn(HeapOf(s), x, Live(s)) && AllUsable(s, Direct(s.objs[x]))
    requires forall i :: 0 <= i < |UpvalsOf(s.objs[x])| ==> UpUsable(s, UpvalsOf(s.objs[x])[i])
    ensures FieldsUsable(s, x)
  {
    var ps := Direct(s.objs[x]);
    match s.objs[x]
    case Udata(mt, user) => assert ps[0] == mt && ps[1] == user;
    case Table(mt, slots) =>
      assert ps[0] == mt;
      forall i | 0 <= i < |slots| ensures Usable(s, slots[i]) {
        assert ps[i + 1] == slots[i];
      }
    case LClosure(p, us) => assert ps[0] == p;
    case _ =>
  }

  /** The program starts from its threads, the registry and the metatables of the
      basic types. */
  lemma RootsUsable(s: Snap)
    requires Inv(s)
    ensures Usable(s, Some(s.mainthread)) && s.objs[s.mainthread].Thread?
    ensures Usable(s, Some(s.running)) && s.objs[s.running].Thread?
    ensures Usable(s, s.registry) && AllUsable(s, s.mt)
  {
    var ps := [s.registry] + s.mt;
    forall x | x in Roots(s) ensures Usable(s, Some(x)) {
      assert IsPath(HeapOf(s), Roots(s), [x]) && [x][|[x]| - 1] == x;
      AccessibleIsLive(s, x);
    }
    forall i | 0 <= i < |ps| ensures Usable(s, ps[i]) {
      if ps[i].Some? { assert ps[i].value in PtrSet(ps); }
    }
    assert ps[0] == s.registry;
    forall i | 0 <= i < |s.mt| ensures Usable(s, s.mt[i]) {
      assert ps[i + 1] == s.mt[i];
    }
  }

  /** `a` holds `b` in one of its fields, or sees it through an upvalue. */
  ghost predicate Holds(h: Heap, a: Ref, b: Ref) {
    && a in h.objs
    && match h.objs[a]
       case Str => false
       case Udata(mt, user) => mt == Some(b) || user == Some(b)
       case Table(mt, slots) => mt == Some(b) || Some(b) in slots
       case LClosure(p, us) => p == Some(b) || exists u :: u in us && Shows(h, u, b)
       case CClosure(values) => Some(b) in values
       case Thread(stack, _) => Some(b) in stack
       case Proto(parts, _, _) => Some(b) in parts
  }

  predicate Shows(h: Heap, u: Up, b: Ref) {
    && u in h.ups
    && match h.ups[u]
       case Closed(v) => v == Some(b)
       case Open(th, i, _) =>
         th in h.objs && h.objs[th].Thread? && i < |h.objs[th].stack| && h.objs[th].stack[i] == Some(b)
  }

  /** What keeps an object alive is a field with it: a full collection, which leaves
      only what can be reached, spares nothing for any other reason. */
  lemma EdgeIsField(h: Heap, a: Ref, b: Ref)
    ensures Edge(h, a, b) <==> Holds(h, a, b)
  {
    assert forall u :: UpValue(h, u) == Some(b) <==> Shows(h, u, b);
  }
}
