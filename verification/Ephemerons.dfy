/** Tables with weak keys in the atomic step of the collector (src/lgc.c): a value is
    marked when its key is. */
module Ephemerons {
  import opened LuaValues

  type Ref = nat

  datatype Color = White | Gray | Black

  /** What a slot holds: nil, something that is not collected, or an object. */
  datatype Slot = Empty | Other | Object(id: Ref)

  datatype Entry = Entry(key: Slot, value: Slot)

  datatype Obj =
    | Str
    | Strong(children: seq<Slot>)
    | Ephemeron(slots: seq<Slot>, entries: seq<Entry>)

  type Heap = map<Ref, Obj>
  type Marks = map<Ref, Color>

  function Whites(m: Marks): set<Ref> {
    set x | x in m && m[x].White?
  }

  predicate IsMarked(m: Marks, v: Slot) {
    v.Object? ==> v.id in m && !m[v.id].White?
  }

  predicate AllMarked(m: Marks, vs: seq<Slot>) {
    forall i :: 0 <= i < |vs| ==> IsMarked(m, vs[i])
  }

  /** Strings and what is not collected are never weak as keys. */
  predicate NeverWeak(h: Heap, k: Slot) {
    k.Object? ==> k.id in h && h[k.id].Str?
  }

  /** The entry will never ask for anything more. */
  predicate Settled(h: Heap, m: Marks, e: Entry) {
    e.value.Empty? || (IsMarked(m, e.value) && (NeverWeak(h, e.key) ==> IsMarked(m, e.key)))
  }

  predicate AllSettled(h: Heap, m: Marks, es: seq<Entry>) {
    forall i :: 0 <= i < |es| ==> Settled(h, m, es[i])
  }

  /** The entry asks for nothing now: it is settled, or its key is not marked. */
  predicate Quiet(h: Heap, m: Marks, e: Entry) {
    Settled(h, m, e) || (!NeverWeak(h, e.key) && !IsMarked(m, e.key))
  }

  predicate AllQuiet(h: Heap, m: Marks, es: seq<Entry>) {
    forall i :: 0 <= i < |es| ==> Quiet(h, m, es[i])
  }

  /** All references are to objects. */
  predicate SlotIn(h: Heap, v: Slot) {
    v.Object? ==> v.id in h
  }

  predicate ObjIn(h: Heap, o: Obj) {
    match o
    case Str => true
    case Strong(vs) => forall i :: 0 <= i < |vs| ==> SlotIn(h, vs[i])
    case Ephemeron(a, es) =>
      && (forall i :: 0 <= i < |a| ==> SlotIn(h, a[i]))
      && (forall i :: 0 <= i < |es| ==> SlotIn(h, es[i].key) && SlotIn(h, es[i].value))
  }

  ghost predicate HeapOk(h: Heap) {
    forall x {:trigger ObjIn(h, h[x])} :: x in h ==> ObjIn(h, h[x])
  }

  /** A marked object is black with all it refers to marked, or still has to be
      traversed: `gray` for the first time, `again` in the next round. */
  predicate MarkedOk(h: Heap, m: Marks, gray: seq<Ref>, again: set<Ref>, x: Ref)
    requires x in h && x in m
  {
    m[x].White? ||
    match h[x]
    case Str => m[x].Black?
    case Strong(vs) => (m[x].Black? && AllMarked(m, vs)) || (m[x].Gray? && x in gray)
    case Ephemeron(a, es) => m[x].Gray? && (x in gray || (AllMarked(m, a) && (x in again || AllSettled(h, m, es))))
  }

  ghost predicate Distinct(l: seq<Ref>) {
    forall i, j :: 0 <= i < j < |l| ==> l[i] != l[j]
  }

  ghost predicate MarksOk(h: Heap, m: Marks, gray: seq<Ref>, again: set<Ref>) {
    && m.Keys == h.Keys && HeapOk(h)
    && (forall x {:trigger MarkedOk(h, m, gray, again, x)} :: x in h ==> MarkedOk(h, m, gray, again, x))
    && (forall x :: x in gray ==> x in h && m[x].Gray?) && Distinct(gray)
    && (forall x :: x in again ==> x in h && h[x].Ephemeron? && m[x].Gray?)
  }

  /** Marks only grow. */
  ghost predicate Grew(m: Marks, m': Marks) {
    m'.Keys == m.Keys && forall x :: x in m ==> m'[x] == m[x] || m[x].White? || (m[x].Gray? && m'[x].Black?)
  }

  // ---- Tables that have to be cleared ----

  /** The entry will not be cleared: it is empty, or its key is marked. */
  predicate Stays(h: Heap, m: Marks, e: Entry) {
    e.value.Empty? || NeverWeak(h, e.key) || IsMarked(m, e.key)
  }

  predicate AllStay(h: Heap, m: Marks, es: seq<Entry>) {
    forall i :: 0 <= i < |es| ==> Stays(h, m, es[i])
  }

  /** A marked table that has been traversed is on one of the lists that are cleared in
      the end, unless all its entries stay. */
  ghost predicate Listed(h: Heap, m: Marks, gray: seq<Ref>, lists: set<Ref>, but: set<Ref>) {
    forall x {:trigger ListedAt(h, m, gray, lists, x)} :: x in h && x in m && x !in but ==>
      ListedAt(h, m, gray, lists, x)
  }

  predicate ListedAt(h: Heap, m: Marks, gray: seq<Ref>, lists: set<Ref>, x: Ref)
    requires x in h && x in m
  {
    !h[x].Ephemeron? || m[x].White? || x in gray || x in lists || AllStay(h, m, h[x].entries)
  }

  /** What has been marked, strings aside, is waiting to be traversed. */
  ghost predicate Queued(h: Heap, m: Marks, gray: seq<Ref>, m': Marks, gray': seq<Ref>) {
    && (forall x :: x in gray ==> x in gray')
    && forall x :: x in m && x in h && !h[x].Str? && m[x].White? && x in m' && !m'[x].White? ==> x in gray'
  }

  lemma StayMarked(h: Heap, m: Marks, m': Marks, es: seq<Entry>)
    requires Grew(m, m') && AllStay(h, m, es)
    ensures AllStay(h, m', es)
  {
    forall i | 0 <= i < |es| ensures Stays(h, m', es[i]) {
      assert Stays(h, m, es[i]);
    }
  }

  lemma StillListed(h: Heap, m: Marks, gray: seq<Ref>, m': Marks, gray': seq<Ref>, lists: set<Ref>, but: set<Ref>)
    requires Listed(h, m, gray, lists, but) && Grew(m, m') && Queued(h, m, gray, m', gray')
    ensures Listed(h, m', gray', lists, but)
  {
    forall x | x in h && x in m' && x !in but ensures ListedAt(h, m', gray', lists, x) {
      assert ListedAt(h, m, gray, lists, x);
      if h[x].Ephemeron? && AllStay(h, m, h[x].entries) { StayMarked(h, m, m', h[x].entries); }
    }
  }

  /** The table `w` has been traversed and is listed if that is needed. */
  lemma NowListed(h: Heap, m: Marks, gray: seq<Ref>, lists: set<Ref>, lists': set<Ref>, w: Ref)
    requires Listed(h, m, gray, lists, {w}) && lists <= lists'
    requires w in h && h[w].Ephemeron? && (w in lists' || AllStay(h, m, h[w].entries))
    ensures Listed(h, m, gray, lists', {})
  {
    forall x | x in h && x in m ensures ListedAt(h, m, gray, lists', x) {
      assert x != w ==> ListedAt(h, m, gray, lists, x);
    }
  }

  // ---- What must be marked, and no more ----

  predicate SlotKept(v: Slot, keep: set<Ref>) {
    v.Object? ==> v.id in keep
  }

  predicate EntryKept(h: Heap, e: Entry, keep: set<Ref>) {
    e.value.Empty? ||
    ((NeverWeak(h, e.key) ==> SlotKept(e.key, keep)) &&
     (NeverWeak(h, e.key) || SlotKept(e.key, keep) ==> SlotKept(e.value, keep)))
  }

  predicate ObjKept(h: Heap, o: Obj, keep: set<Ref>) {
    match o
    case Str => true
    case Strong(vs) => forall i :: 0 <= i < |vs| ==> SlotKept(vs[i], keep)
    case Ephemeron(a, es) =>
      (forall i :: 0 <= i < |a| ==> SlotKept(a[i], keep)) && (forall i :: 0 <= i < |es| ==> EntryKept(h, es[i], keep))
  }

  /** The set has whatever its objects refer to, values of ephemeron entries only if
      it has their keys. */
  ghost predicate Closed(h: Heap, keep: set<Ref>) {
    forall x {:trigger ObjKept(h, h[x], keep)} :: x in keep && x in h ==> ObjKept(h, h[x], keep)
  }

  function NonWhite(m: Marks): set<Ref> {
    set x | x in m && !m[x].White?
  }

  /** No set that is closed and has all that is marked loses a mark. */
  ghost predicate Within(h: Heap, m: Marks, m': Marks) {
    forall keep {:trigger Closed(h, keep)} :: Closed(h, keep) && NonWhite(m) <= keep ==> NonWhite(m') <= keep
  }

  /** When nothing is left to do the marks are a closed set themselves. */
  lemma FinalIsClosed(h: Heap, m: Marks, again: set<Ref>)
    requires MarksOk(h, m, [], again)
    requires forall x :: x in again && x in h && h[x].Ephemeron? ==> AllQuiet(h, m, h[x].entries)
    ensures Closed(h, NonWhite(m))
  {
    forall x | x in NonWhite(m) && x in h ensures ObjKept(h, h[x], NonWhite(m)) {
      assert MarkedOk(h, m, [], again, x);
      if h[x].Ephemeron? {
        var es := h[x].entries;
        forall i | 0 <= i < |es| ensures EntryKept(h, es[i], NonWhite(m)) {
          assert Settled(h, m, es[i]) || Quiet(h, m, es[i]);
        }
      }
    }
  }

  // ---- Steps ----

  lemma GrewMarked(m: Marks, m': Marks, v: Slot)
    requires Grew(m, m') && IsMarked(m, v)
    ensures IsMarked(m', v)
  {
  }

  lemma GrewSettled(h: Heap, m: Marks, m': Marks, es: seq<Entry>)
    requires Grew(m, m') && AllSettled(h, m, es)
    ensures AllSettled(h, m', es)
  {
    forall i | 0 <= i < |es| ensures Settled(h, m', es[i]) {
      assert Settled(h, m, es[i]);
    }
  }

  /** Only strings have been marked. */
  ghost predicate OnlyStrings(h: Heap, m: Marks, m': Marks) {
    Grew(m, m') && forall x :: x in m && m'[x] != m[x] ==> x in h && h[x].Str?
  }

  lemma StringsKeepQuiet(h: Heap, m: Marks, m': Marks, es: seq<Entry>)
    requires OnlyStrings(h, m, m') && AllQuiet(h, m, es)
    ensures AllQuiet(h, m', es)
  {
    forall i | 0 <= i < |es| ensures Quiet(h, m', es[i]) {
      assert Quiet(h, m, es[i]);
    }
  }

  /** One white object has been marked. */
  lemma MarkStep(h: Heap, m: Marks, gray: seq<Ref>, again: set<Ref>, o: Ref, but: set<Ref>)
    requires MarksBut(h, m, gray, again, but) && o in h && m[o].White?
    ensures var m', gray' := m[o := if h[o].Str? then Black else Gray], if h[o].Str? then gray else [o] + gray;
            MarksBut(h, m', gray', again, but) && Grew(m, m') && Whites(m') == Whites(m) - {o}
  {
    var m', gray' := m[o := if h[o].Str? then Black else Gray], if h[o].Str? then gray else [o] + gray;
    forall x | x in h && x !in but ensures MarkedOk(h, m', gray', again, x) {
      assert MarkedOk(h, m, gray, again, x);
      if x != o && h[x].Ephemeron? && AllSettled(h, m, h[x].entries) { GrewSettled(h, m, m', h[x].entries); }
    }
  }

  /** MarksOk, but for the objects of `but`. */
  ghost predicate MarksBut(h: Heap, m: Marks, gray: seq<Ref>, again: set<Ref>, but: set<Ref>) {
    && m.Keys == h.Keys && HeapOk(h)
    && (forall x {:trigger MarkedOk(h, m, gray, again, x)} :: x in h && x !in but ==> MarkedOk(h, m, gray, again, x))
    && (forall x :: x in gray ==> x in h && m[x].Gray?) && Distinct(gray)
    && (forall x :: x in again ==> x in h && h[x].Ephemeron? && m[x].Gray?)
  }

  /** What a traversal of table `w` has done to the marks; `did` says that more than
      strings has been marked. */
  ghost predicate Went(h: Heap, m: Marks, gray: seq<Ref>, w: Ref, did: bool, m': Marks, gray': seq<Ref>) {
    && Grew(m, m') && WithinFrom(h, m, m', w) && Whites(m') <= Whites(m)
    && |gray'| + |Whites(m')| <= |gray| + |Whites(m)|
    && (did ==> Whites(m') != Whites(m)) && (forall x :: x in m && !m[x].White? ==> m'[x] == m[x])
    && Queued(h, m, gray, m', gray')
    && (!did ==> OnlyStrings(h, m, m') && gray' == gray)
  }

  /** As Within, for sets that have `w`. */
  ghost predicate WithinFrom(h: Heap, m: Marks, m': Marks, w: Ref) {
    forall keep {:trigger Closed(h, keep)} :: Closed(h, keep) && w in keep && NonWhite(m) <= keep ==>
      NonWhite(m') <= keep
  }

  lemma WentNowhere(h: Heap, m: Marks, gray: seq<Ref>, w: Ref)
    ensures Went(h, m, gray, w, false, m, gray)
  {
  }

  lemma WentTransitive(h: Heap, m: Marks, g: seq<Ref>, w: Ref, did1: bool, m1: Marks, g1: seq<Ref>, did2: bool,
                       m2: Marks,
                       g2: seq<Ref>)
    requires Went(h, m, g, w, did1, m1, g1) && Went(h, m1, g1, w, did2, m2, g2)
    ensures Went(h, m, g, w, did1 || did2, m2, g2)
  {
  }

  /** Marking one slot that every closed set with `w` and the marked objects has. */
  lemma SlotWent(h: Heap, m: Marks, g: seq<Ref>, w: Ref, v: Slot, m': Marks, g': seq<Ref>, did: bool)
    requires Grew(m, m') && did == (v.Object? && v.id in m && m[v.id].White?)
    requires did ==> Whites(m') == Whites(m) - {v.id} && NonWhite(m') == NonWhite(m) + {v.id}
    requires !did ==> m' == m && g' == g
    requires forall x :: x in m && !m[x].White? ==> m'[x] == m[x]
    requires |g'| <= |g| + 1 && Queued(h, m, g, m', g')
    requires forall keep :: Closed(h, keep) && w in keep && NonWhite(m) <= keep ==> SlotKept(v, keep)
    ensures Went(h, m, g, w, did, m', g')
  {
    if did { assert v.id in Whites(m) && v.id !in Whites(m'); }
  }

  function SlotsOf(o: Obj): seq<Slot> {
    match o
    case Str => []
    case Strong(vs) => vs
    case Ephemeron(a, _) => a
  }

  lemma SlotOfKept(h: Heap, w: Ref, i: nat)
    requires w in h && i < |SlotsOf(h[w])|
    ensures forall keep :: Closed(h, keep) && w in keep ==> SlotKept(SlotsOf(h[w])[i], keep)
  {
    forall keep | Closed(h, keep) && w in keep ensures SlotKept(SlotsOf(h[w])[i], keep) {
      assert ObjKept(h, h[w], keep);
    }
  }

  lemma EntrySlotKept(h: Heap, w: Ref, i: nat, m: Marks)
    requires w in h && h[w].Ephemeron? && i < |h[w].entries| && !h[w].entries[i].value.Empty?
    ensures var e := h[w].entries[i];
            forall keep :: Closed(h, keep) && w in keep && NonWhite(m) <= keep ==>
              (NeverWeak(h, e.key) ==> SlotKept(e.key, keep)) &&
              (NeverWeak(h, e.key) || IsMarked(m, e.key) ==> SlotKept(e.value, keep))
  {
    var e := h[w].entries[i];
    forall keep | Closed(h, keep) && w in keep && NonWhite(m) <= keep
      ensures NeverWeak(h, e.key) ==> SlotKept(e.key, keep)
      ensures NeverWeak(h, e.key) || IsMarked(m, e.key) ==> SlotKept(e.value, keep)
    {
      assert ObjKept(h, h[w], keep) && EntryKept(h, e, keep);
    }
  }

  function Elems(l: seq<Ref>): set<Ref> {
    set x | x in l
  }

  lemma EntriesStep(h: Heap, m: Marks, m': Marks, es: seq<Entry>, i: nat, ww: bool, did: bool)
    requires i < |es| && Grew(m, m') && (!did ==> OnlyStrings(h, m, m'))
    requires !ww ==> AllSettled(h, m, es[..i]) && Settled(h, m', es[i])
    requires !did ==> AllQuiet(h, m, es[..i]) && Quiet(h, m', es[i])
    ensures !ww ==> AllSettled(h, m', es[..i + 1])
    ensures !did ==> AllQuiet(h, m', es[..i + 1])
  {
    assert es[..i + 1] == es[..i] + [es[i]];
    if !ww { GrewSettled(h, m, m', es[..i]); }
    if !did { StringsKeepQuiet(h, m, m', es[..i]); }
  }

  /** The traversed table is in order: settled, or on the list for the next round. */
  lemma MoreAgain(h: Heap, m: Marks, gray: seq<Ref>, again: set<Ref>, again': set<Ref>, w: Ref)
    requires MarksBut(h, m, gray, again, {w}) && w in h && h[w].Ephemeron? && m[w].Gray? &&
             again <= again' <= again + {w}
    requires AllMarked(m, h[w].slots) && (w in again' || AllSettled(h, m, h[w].entries))
    ensures MarksOk(h, m, gray, again')
  {
    forall x | x in h ensures MarkedOk(h, m, gray, again', x) {
      assert x != w ==> MarkedOk(h, m, gray, again, x);
    }
  }

  lemma HeadPopped(h: Heap, m: Marks, gray: seq<Ref>, again: set<Ref>)
    requires MarksOk(h, m, gray, again) && gray != []
    ensures gray[0] in h && !h[gray[0]].Str? && m[gray[0]].Gray? && gray[0] !in gray[1..]
    ensures MarksBut(h, m, gray[1..], again, {gray[0]})
    ensures !h[gray[0]].Ephemeron? ==> MarksBut(h, m[gray[0] := Black], gray[1..], again, {gray[0]})
    ensures Whites(m[gray[0] := Black]) == Whites(m) && NonWhite(m[gray[0] := Black]) == NonWhite(m)
  {
    var o, tail := gray[0], gray[1..];
    assert MarkedOk(h, m, gray, again, o);
    assert forall i :: 0 <= i < |tail| ==> tail[i] == gray[i + 1];
    forall x | x in h && x != o
      ensures MarkedOk(h, m, tail, again, x)
      ensures MarkedOk(h, m[o := Black], tail, again, x)
    {
      assert MarkedOk(h, m, gray, again, x);
      assert x in gray ==> x in tail;
      if h[x].Ephemeron? && AllSettled(h, m, h[x].entries) { BlackSettled(h, m, o, h[x].entries); }
    }
  }

  lemma HeadListed(h: Heap, m: Marks, gray: seq<Ref>, lists: set<Ref>)
    requires Listed(h, m, gray, lists, {}) && gray != [] && gray[0] in h && gray[0] in m && !m[gray[0]].White?
    ensures Listed(h, m, gray[1..], lists, {gray[0]})
    ensures !h[gray[0]].Ephemeron? ==> Listed(h, m[gray[0] := Black], gray[1..], lists, {})
  {
    var o, tail, m' := gray[0], gray[1..], m[gray[0] := Black];
    assert gray == [o] + tail;
    forall x | x in h && x in m && x != o ensures ListedAt(h, m, tail, lists, x) && ListedAt(h, m', tail, lists, x) {
      assert ListedAt(h, m, gray, lists, x);
      if h[x].Ephemeron? && AllStay(h, m, h[x].entries) {
        forall i | 0 <= i < |h[x].entries| ensures Stays(h, m', h[x].entries[i]) {
          assert Stays(h, m, h[x].entries[i]);
        }
      }
    }
  }

  lemma BlackSettled(h: Heap, m: Marks, o: Ref, es: seq<Entry>)
    requires AllSettled(h, m, es) && o in m && !m[o].White?
    ensures AllSettled(h, m[o := Black], es)
  {
    forall i | 0 <= i < |es| ensures Settled(h, m[o := Black], es[i]) {
      assert Settled(h, m, es[i]);
    }
  }

  lemma WentWithin(h: Heap, m: Marks, m1: Marks, m2: Marks, o: Ref)
    requires o in NonWhite(m) && NonWhite(m1) == NonWhite(m) && WithinFrom(h, m1, m2, o)
    ensures Within(h, m, m2)
  {
  }

  lemma StrongDone(h: Heap, m: Marks, gray: seq<Ref>, again: set<Ref>, o: Ref)
    requires MarksBut(h, m, gray, again, {o}) && o in h && h[o].Strong? && m[o].Black? && AllMarked(m, h[o].children)
    ensures MarksOk(h, m, gray, again)
  {
  }

  /** The rest of the list and the new list are what is to be looked at again. */
  lemma NextPopped(h: Heap, m: Marks, next: seq<Ref>, eph: seq<Ref>)
    requires MarksOk(h, m, [], Elems(next) + Elems(eph)) && next != []
    ensures next[0] in h && h[next[0]].Ephemeron? && m[next[0]].Gray?
    ensures MarksBut(h, m, [], Elems(next[1..]) + Elems(eph), {next[0]})
  {
    assert next[0] in Elems(next);
    assert next == [next[0]] + next[1..];
    assert Elems(next) == {next[0]} + Elems(next[1..]);
    forall x | x in h && x != next[0] ensures MarkedOk(h, m, [], Elems(next[1..]) + Elems(eph), x) {
      assert MarkedOk(h, m, [], Elems(next) + Elems(eph), x);
    }
  }

  lemma NextListed(h: Heap, m: Marks, next: seq<Ref>, a: set<Ref>, b: set<Ref>)
    requires Listed(h, m, [], Elems(next) + a + b, {}) && next != []
    ensures Listed(h, m, [], Elems(next[1..]) + a + b, {next[0]})
  {
    assert next == [next[0]] + next[1..];
    forall x | x in h && x in m && x != next[0] ensures ListedAt(h, m, [], Elems(next[1..]) + a + b, x) {
      assert ListedAt(h, m, [], Elems(next) + a + b, x);
    }
  }

  /** So far only strings have been marked in this round, and the tables of the new
      list ask for nothing. */
  ghost predicate QuietSoFar(h: Heap, m: Marks, m': Marks, eph: seq<Ref>) {
    OnlyStrings(h, m, m') && forall x :: x in eph ==> x in h && h[x].Ephemeron? && AllQuiet(h, m', h[x].entries)
  }

  lemma StillQuiet(h: Heap, m: Marks, m1: Marks, m2: Marks, eph1: seq<Ref>, eph2: seq<Ref>, w: Ref)
    requires QuietSoFar(h, m, m1, eph1) && OnlyStrings(h, m1, m2) && (eph2 == eph1 || eph2 == [w] + eph1)
    requires w in h && h[w].Ephemeron? && AllQuiet(h, m2, h[w].entries)
    ensures QuietSoFar(h, m, m2, eph2)
  {
    forall x | x in eph2 ensures x in h && h[x].Ephemeron? && AllQuiet(h, m2, h[x].entries) {
      if x != w { StringsKeepQuiet(h, m1, m2, h[x].entries); }
    }
  }

  lemma RoundStep(h: Heap, m: Marks, m1: Marks, m2: Marks, changed: bool, did: bool, eph1: seq<Ref>, eph2: seq<Ref>,
                  w: Ref)
    requires Grew(m, m1) && Within(h, m, m1) && Whites(m1) <= Whites(m)
    requires Grew(m1, m2) && Within(h, m1, m2) && Whites(m2) <= Whites(m1) && (did ==> Whites(m2) != Whites(m1))
    requires if changed then Whites(m1) != Whites(m) else QuietSoFar(h, m, m1, eph1)
    requires !did ==> OnlyStrings(h, m1, m2) && w in h && h[w].Ephemeron? && AllQuiet(h, m2, h[w].entries) &&
                      (eph2 == eph1 || eph2 == [w] + eph1)
    ensures Grew(m, m2) && Within(h, m, m2) && Whites(m2) <= Whites(m)
    ensures if changed || did then Whites(m2) != Whites(m) else QuietSoFar(h, m, m2, eph2)
  {
    if !changed && !did { StillQuiet(h, m, m1, m2, eph1, eph2, w); }
  }

  lemma {:induction false} Fewer(a: set<Ref>, b: set<Ref>)
    requires a <= b && a != b
    ensures |a| < |b|
  {
    if a == {} { assert b != {}; } else {
      var x :| x in a;
      Fewer(a - {x}, b - {x});
    }
  }

  lemma AllTablesQuiet(h: Heap, m: Marks, eph: seq<Ref>)
    requires MarksOk(h, m, [], Elems(eph))
    requires forall x :: x in eph ==> x in h && h[x].Ephemeron? && AllQuiet(h, m, h[x].entries)
    ensures forall x :: x in NonWhite(m) && x in h && h[x].Ephemeron? ==> AllQuiet(h, m, h[x].entries)
  {
    forall x | x in NonWhite(m) && x in h && h[x].Ephemeron? ensures AllQuiet(h, m, h[x].entries) {
      assert MarkedOk(h, m, [], Elems(eph), x);
      if AllSettled(h, m, h[x].entries) {
        forall i | 0 <= i < |h[x].entries| ensures Quiet(h, m, h[x].entries[i]) {
          assert Settled(h, m, h[x].entries[i]);
        }
      }
    }
  }

  lemma ListMoved(l: seq<Ref>, s: set<Ref>)
    ensures {} + Elems(l) + s == Elems(l) + Elems([]) + s
  {
  }

  /** A value under a key that is a dead object. */
  predicate MustClear(h: Heap, m: Marks, e: Entry) {
    && !e.value.Empty? && e.key.Object? && e.key.id in h && !h[e.key.id].Str?
    && e.key.id in m && m[e.key.id].White?
  }

  /** Tables with such an entry are on one of the lists that are cleared. */
  ghost predicate ClearsListed(h: Heap, m: Marks, eph: seq<Ref>, allweak: seq<Ref>) {
    forall x, i :: (x in NonWhite(m) && x in h && h[x].Ephemeron? && 0 <= i < |h[x].entries| &&
                    MustClear(h, m, h[x].entries[i])) ==> x in eph || x in allweak
  }

  lemma ToBeCleared(h: Heap, m: Marks, eph: seq<Ref>, allweak: seq<Ref>)
    requires Listed(h, m, [], {} + Elems(eph) + Elems(allweak), {})
    ensures ClearsListed(h, m, eph, allweak)
  {
    forall x, i | x in NonWhite(m) && x in h && h[x].Ephemeron? && 0 <= i < |h[x].entries| &&
                  MustClear(h, m, h[x].entries[i])
      ensures x in eph || x in allweak
    {
      assert ListedAt(h, m, [], {} + Elems(eph) + Elems(allweak), x) && !Stays(h, m, h[x].entries[i]);
    }
  }

  class Marker {
    const h: Heap
    var marked: Marks
    var gray: seq<Ref>
    var ephemeron: seq<Ref>
    var allweak: seq<Ref>

    /** Every traversed table is listed if it has to be, but for those of `but`. */
    ghost predicate AllListed(rest: set<Ref>, but: set<Ref>)
      reads this
    {
      Listed(h, marked, gray, rest + Elems(ephemeron) + Elems(allweak), but)
    }

    /** markvalue: was the object white? */
    method MarkSlot(v: Slot, ghost again: set<Ref>, ghost but: set<Ref>) returns (did: bool)
      requires MarksBut(h, marked, gray, again, but) && SlotIn(h, v)
      modifies this`marked, this`gray
      ensures MarksBut(h, marked, gray, again, but) && Grew(old(marked), marked) && IsMarked(marked, v)
      ensures did <==> v.Object? && old(marked)[v.id].White?
      ensures did ==>
                Whites(marked) == Whites(old(marked)) - {v.id} && NonWhite(marked) == NonWhite(old(marked)) + {v.id}
      ensures !did ==> marked == old(marked) && gray == old(gray)
      ensures |gray| <= |old(gray)| + 1 && Queued(h, old(marked), old(gray), marked, gray)
      ensures forall x :: x in old(marked) && !old(marked)[x].White? ==> marked[x] == old(marked)[x]
      ensures v.Object? && h[v.id].Str? ==> gray == old(gray) && OnlyStrings(h, old(marked), marked)
    {
      did := v.Object? && marked[v.id].White?;
      if did {
        MarkStep(h, marked, gray, again, v.id, but);
        if h[v.id].Str? {
          marked := marked[v.id := Black];
        } else {
          marked := marked[v.id := Gray];
          gray := [v.id] + gray;
        }
      }
    }

    /** The strong references of an object, or the array part of an ephemeron table. */
    method MarkSlots(w: Ref, ghost again: set<Ref>) returns (did: bool)
      requires MarksBut(h, marked, gray, again, {w}) && w in h
      modifies this`marked, this`gray
      ensures MarksBut(h, marked, gray, again, {w}) && AllMarked(marked, SlotsOf(h[w]))
      ensures Went(h, old(marked), old(gray), w, did, marked, gray)
    {
      ghost var m, g := marked, gray;
      assert ObjIn(h, h[w]);
      did := false;
      WentNowhere(h, m, g, w);
      var a, i := SlotsOf(h[w]), 0;
      while i < |a|
        invariant 0 <= i <= |a| && MarksBut(h, marked, gray, again, {w}) && Went(h, m, g, w, did, marked, gray)
        invariant forall j :: 0 <= j < i ==> IsMarked(marked, a[j])
      {
        ghost var m1, g1 := marked, gray;
        var one := MarkSlot(a[i], again, {w});
        SlotOfKept(h, w, i);
        SlotWent(h, m1, g1, w, a[i], marked, gray, one);
        WentTransitive(h, m, g, w, did, m1, g1, one, marked, gray);
        did := did || one;
        i := i + 1;
      }
    }

    /** iscleared, for a key: strings are marked here. */
    method IsCleared(w: Ref, i: nat, ghost again: set<Ref>) returns (cleared: bool)
      requires MarksBut(h, marked, gray, again, {w}) && w in h && h[w].Ephemeron? && i < |h[w].entries|
      requires !h[w].entries[i].value.Empty?
      modifies this`marked
      ensures MarksBut(h, marked, gray, again, {w}) && Went(h, old(marked), gray, w, false, marked, gray)
      ensures var k := h[w].entries[i].key;
              if NeverWeak(h, k) then !cleared && IsMarked(marked, k)
              else marked == old(marked) && cleared == !IsMarked(marked, k)
    {
      ghost var m := marked;
      assert ObjIn(h, h[w]);
      WentNowhere(h, m, gray, w);
      var k := h[w].entries[i].key;
      if !k.Object? {
        cleared := false;
      } else if h[k.id].Str? {
        if marked[k.id].White? {
          MarkStep(h, marked, gray, again, k.id, {w});
          marked := marked[k.id := Black];
          EntrySlotKept(h, w, i, m);
          assert NonWhite(marked) == NonWhite(m) + {k.id};
        }
        cleared := false;
      } else {
        cleared := marked[k.id].White?;
      }
    }

    /** One entry; `ww` if key and value are both white. */
    method VisitEntry(w: Ref, i: nat, ghost again: set<Ref>) returns (did: bool, cleared: bool, ww: bool)
      requires MarksBut(h, marked, gray, again, {w}) && w in h && h[w].Ephemeron? && i < |h[w].entries|
      modifies this`marked, this`gray
      ensures MarksBut(h, marked, gray, again, {w}) && Went(h, old(marked), old(gray), w, did, marked, gray)
      ensures !ww ==> Settled(h, marked, h[w].entries[i])
      ensures !did ==> Quiet(h, marked, h[w].entries[i])
      ensures !cleared ==> Stays(h, marked, h[w].entries[i])
    {
      ghost var m, g := marked, gray;
      assert ObjIn(h, h[w]);
      WentNowhere(h, m, g, w);
      did, cleared, ww := false, false, false;
      var e := h[w].entries[i];
      if e.value.Empty? { return; }
      cleared := IsCleared(w, i, again);
      ghost var m1 := marked;
      if cleared {
        ww := e.value.Object? && marked[e.value.id].White?;
      } else {
        did := MarkSlot(e.value, again, {w});
        EntrySlotKept(h, w, i, m1);
        SlotWent(h, m1, g, w, e.value, marked, gray, did);
        WentTransitive(h, m, g, w, false, m1, g, did, marked, gray);
      }
    }

    /** The hash part. */
    method VisitEntries(w: Ref, ghost again: set<Ref>) returns (did: bool, hasclears: bool, hasww: bool)
      requires MarksBut(h, marked, gray, again, {w}) && w in h && h[w].Ephemeron?
      modifies this`marked, this`gray
      ensures MarksBut(h, marked, gray, again, {w}) && Went(h, old(marked), old(gray), w, did, marked, gray)
      ensures !hasww ==> AllSettled(h, marked, h[w].entries)
      ensures !did ==> AllQuiet(h, marked, h[w].entries)
      ensures !hasclears ==> AllStay(h, marked, h[w].entries)
    {
      ghost var m, g := marked, gray;
      WentNowhere(h, m, g, w);
      did, hasclears, hasww := false, false, false;
      var es, i := h[w].entries, 0;
      while i < |es|
        invariant 0 <= i <= |es| && MarksBut(h, marked, gray, again, {w}) && Went(h, m, g, w, did, marked, gray)
        invariant !hasww ==> AllSettled(h, marked, es[..i])
        invariant !did ==> AllQuiet(h, marked, es[..i])
        invariant !hasclears ==> AllStay(h, marked, es[..i])
      {
        ghost var m1, g1 := marked, gray;
        var one, cleared, ww := VisitEntry(w, i, again);
        WentTransitive(h, m, g, w, did, m1, g1, one, marked, gray);
        EntriesStep(h, m1, marked, es, i, hasww || ww, did || one);
        if !hasclears { StayMarked(h, m1, marked, es[..i]); }
        assert es[..i + 1] == es[..i] + [es[i]];
        did, hasclears, hasww := did || one, hasclears || cleared, hasww || ww;
        i := i + 1;
      }
      assert es[..i] == es;
    }

    /** traverseephemeron, in the atomic step: was anything but strings marked? */
    method TraverseEphemeron(w: Ref, ghost rest: set<Ref>) returns (did: bool)
      requires MarksBut(h, marked, gray, rest + Elems(ephemeron), {w}) && w in h && h[w].Ephemeron? && marked[w].Gray?
      requires AllListed(rest, {w})
      modifies this`marked, this`gray, this`ephemeron, this`allweak
      ensures AllListed(rest, {})
      ensures MarksOk(h, marked, gray, rest + Elems(ephemeron)) && Went(h, old(marked), old(gray), w, did, marked, gray)
      ensures ephemeron == old(ephemeron) || ephemeron == [w] + old(ephemeron)
      ensures !did ==> AllQuiet(h, marked, h[w].entries)
    {
      ghost var m, g, again := marked, gray, rest + Elems(ephemeron);
      ghost var lists := again + Elems(allweak);
      var did1 := MarkSlots(w, again);
      ghost var m1, g1 := marked, gray;
      var did2, hasclears, hasww := VisitEntries(w, again);
      WentTransitive(h, m, g, w, did1, m1, g1, did2, marked, gray);
      did := did1 || did2;
      StillListed(h, m, g, marked, gray, lists, {w});
      assert AllMarked(marked, h[w].slots) by {
        forall i | 0 <= i < |h[w].slots| ensures IsMarked(marked, h[w].slots[i]) {
          GrewMarked(m1, marked, h[w].slots[i]);
        }
      }
      if hasww {
        ephemeron := [w] + ephemeron;
      } else if hasclears {
        allweak := [w] + allweak;
      }
      assert Elems(ephemeron) == Elems(old(ephemeron)) || Elems(ephemeron) == Elems(old(ephemeron)) + {w};
      MoreAgain(h, marked, gray, again, rest + Elems(ephemeron), w);
      NowListed(h, marked, gray, lists, rest + Elems(ephemeron) + Elems(allweak), w);
    }

    /** propagatemark, for the objects there are here. */
    method PropagateMark(ghost rest: set<Ref>)
      requires MarksOk(h, marked, gray, rest + Elems(ephemeron)) && gray != [] && AllListed(rest, {})
      modifies this`marked, this`gray, this`ephemeron, this`allweak
      ensures AllListed(rest, {})
      ensures MarksOk(h, marked, gray, rest + Elems(ephemeron)) && Grew(old(marked), marked) &&
              Within(h, old(marked), marked)
      ensures |gray| + |Whites(marked)| < old(|gray| + |Whites(marked)|) && Whites(marked) <= old(Whites(marked))
    {
      ghost var m, again := marked, rest + Elems(ephemeron);
      var o := gray[0];
      HeadPopped(h, marked, gray, again);
      HeadListed(h, marked, gray, again + Elems(allweak));
      gray := gray[1..];
      if h[o].Ephemeron? {
        var did := TraverseEphemeron(o, rest);
        WentWithin(h, m, m, marked, o);
      } else {
        marked := marked[o := Black];
        ghost var m1, g1 := marked, gray;
        var did := MarkSlots(o, again);
        StillListed(h, m1, g1, marked, gray, again + Elems(allweak), {});
        StrongDone(h, marked, gray, again, o);
        WentWithin(h, m, m1, marked, o);
      }
    }

    method PropagateAll(ghost rest: set<Ref>)
      requires MarksOk(h, marked, gray, rest + Elems(ephemeron)) && AllListed(rest, {})
      modifies this`marked, this`gray, this`ephemeron, this`allweak
      ensures MarksOk(h, marked, gray, rest + Elems(ephemeron)) && gray == [] && AllListed(rest, {})
      ensures Grew(old(marked), marked) && Within(h, old(marked), marked) && Whites(marked) <= old(Whites(marked))
    {
      ghost var m := marked;
      while gray != []
        invariant MarksOk(h, marked, gray, rest + Elems(ephemeron)) && AllListed(rest, {})
        invariant Grew(m, marked) && Within(h, m, marked) && Whites(marked) <= Whites(m)
        decreases |gray| + |Whites(marked)|
      {
        PropagateMark(rest);
      }
    }

    /** One table of the round. */
    method VisitTable(w: Ref, ghost rest: set<Ref>) returns (did: bool)
      requires MarksBut(h, marked, gray, rest + Elems(ephemeron), {w}) && w in h && h[w].Ephemeron? && marked[w].Gray?
      requires gray == [] && AllListed(rest, {w})
      modifies this`marked, this`gray, this`ephemeron, this`allweak
      ensures MarksOk(h, marked, gray, rest + Elems(ephemeron)) && gray == [] && AllListed(rest, {})
      ensures Grew(old(marked), marked) && Within(h, old(marked), marked) && Whites(marked) <= old(Whites(marked))
      ensures did ==> Whites(marked) != old(Whites(marked))
      ensures !did ==> OnlyStrings(h, old(marked), marked) && AllQuiet(h, marked, h[w].entries) &&
                       (ephemeron == old(ephemeron) || ephemeron == [w] + old(ephemeron))
    {
      ghost var m := marked;
      did := TraverseEphemeron(w, rest);
      WentWithin(h, m, m, marked, w);
      if did {
        PropagateAll(rest);
      }
    }

    /** The first table of the list. */
    method VisitHead(next: seq<Ref>) returns (did: bool)
      requires MarksOk(h, marked, gray, Elems(next) + Elems(ephemeron)) && gray == [] && AllListed(Elems(next), {})
      requires next != []
      modifies this`marked, this`gray, this`ephemeron, this`allweak
      ensures MarksOk(h, marked, gray, Elems(next[1..]) + Elems(ephemeron)) && gray == []
      ensures AllListed(Elems(next[1..]), {}) && next[0] in h && h[next[0]].Ephemeron?
      ensures Grew(old(marked), marked) && Within(h, old(marked), marked) && Whites(marked) <= old(Whites(marked))
      ensures did ==> Whites(marked) != old(Whites(marked))
      ensures !did ==> OnlyStrings(h, old(marked), marked) && AllQuiet(h, marked, h[next[0]].entries) &&
                       (ephemeron == old(ephemeron) || ephemeron == [next[0]] + old(ephemeron))
    {
      NextPopped(h, marked, next, ephemeron);
      NextListed(h, marked, next, Elems(ephemeron), Elems(allweak));
      did := VisitTable(next[0], Elems(next[1..]));
    }

    /** One round over the list `next0`. */
    method Round(next0: seq<Ref>) returns (changed: bool)
      requires MarksOk(h, marked, gray, Elems(next0)) && gray == [] && ephemeron == []
      requires AllListed(Elems(next0), {})
      modifies this`marked, this`gray, this`ephemeron, this`allweak
      ensures MarksOk(h, marked, gray, Elems(ephemeron)) && gray == [] && AllListed({}, {})
      ensures Grew(old(marked), marked) && Within(h, old(marked), marked)
      ensures changed ==> |Whites(marked)| < |old(Whites(marked))|
      ensures !changed ==> forall x :: x in ephemeron ==> x in h && h[x].Ephemeron? && AllQuiet(h, marked, h[x].entries)
    {
      ghost var m := marked;
      var next := next0;
      changed := false;
      assert Elems(next) + Elems(ephemeron) == Elems(next0);
      while next != []
        invariant MarksOk(h, marked, gray, Elems(next) + Elems(ephemeron)) && gray == []
        invariant AllListed(Elems(next), {})
        invariant Grew(m, marked) && Within(h, m, marked) && Whites(marked) <= Whites(m)
        invariant if changed then Whites(marked) != Whites(m) else QuietSoFar(h, m, marked, ephemeron)
        decreases |next|
      {
        var w := next[0];
        ghost var m1, e1 := marked, ephemeron;
        var did := VisitHead(next);
        next := next[1..];
        RoundStep(h, m, m1, marked, changed, did, e1, ephemeron, w);
        changed := changed || did;
      }
      if changed { Fewer(Whites(marked), Whites(m)); }
      assert Elems([]) == {} && {} + Elems(ephemeron) == Elems(ephemeron);
    }

    /** The tables to be traversed again become the list of the next round. */
    method NextRound() returns (changed: bool)
      requires MarksOk(h, marked, gray, Elems(ephemeron)) && gray == [] && AllListed({}, {})
      modifies this`marked, this`gray, this`ephemeron, this`allweak
      ensures MarksOk(h, marked, gray, Elems(ephemeron)) && gray == [] && AllListed({}, {})
      ensures Grew(old(marked), marked) && Within(h, old(marked), marked)
      ensures changed ==> |Whites(marked)| < |old(Whites(marked))|
      ensures !changed ==> forall x :: x in ephemeron ==> x in h && h[x].Ephemeron? && AllQuiet(h, marked, h[x].entries)
    {
      var next := ephemeron;
      ephemeron := [];
      ListMoved(next, Elems(allweak));
      changed := Round(next);
    }

    /** convergeephemerons: rounds until one marks nothing more. Afterwards what is
        marked is closed, and every closed set with what was marked before has it. A
        table with an entry that has to be cleared, because its key is not marked, is
        on one of the two lists that are cleared. */
    method ConvergeEphemerons()
      requires MarksOk(h, marked, gray, Elems(ephemeron)) && gray == [] && AllListed({}, {})
      modifies this`marked, this`gray, this`ephemeron, this`allweak
      ensures MarksOk(h, marked, gray, Elems(ephemeron)) && Grew(old(marked), marked)
      ensures ClearsListed(h, marked, ephemeron, allweak)
      ensures forall x :: x in NonWhite(marked) && x in h && h[x].Ephemeron? ==> AllQuiet(h, marked, h[x].entries)
      ensures Closed(h, NonWhite(marked)) && Within(h, old(marked), marked)
    {
      ghost var m := marked;
      var changed := true;
      while changed
        invariant MarksOk(h, marked, gray, Elems(ephemeron)) && gray == [] && AllListed({}, {})
        invariant Grew(m, marked) && Within(h, m, marked)
        invariant !changed ==> forall x :: x in ephemeron ==>
                    x in h && h[x].Ephemeron? && AllQuiet(h, marked, h[x].entries)
        decreases if changed then 1 + |Whites(marked)| else 0
      {
        changed := NextRound();
      }
      FinalIsClosed(h, marked, Elems(ephemeron));
      AllTablesQuiet(h, marked, ephemeron);
      ToBeCleared(h, marked, ephemeron, allweak);
    }
  }
}
