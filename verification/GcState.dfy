/** The states of the collector and what holds in each of them
    (src/lgc.h, src/lgc.c, src/lstate.h). */
module GcState {
  import opened LuaValues
  import opened GcHeap

  datatype Color = White0 | White1 | Gray | Black

  datatype Phase =
    | Propagate
    | Atomic
    | SwpAllGc
    | SwpFinObj
    | SwpToBeFnz
    | SwpEnd
    | CallFin
    | Pause
    | InsideAtomic

  type Marks = map<Ref, Color>

  predicate IsWhite(c: Color) {
    c.White0? || c.White1?
  }

  function OtherWhite(c: Color): Color {
    if c.White0? then White1 else White0
  }

  /** The state of the collector and of the program it serves. `sweepgc` is the
      position of the sweep in `allgc`, if it is under way. */
  datatype Snap = Snap(
    objs: map<Ref, Obj>,
    ups: map<Up, UpVal>,
    marked: Marks,
    currentwhite: Color,
    gcstate: Phase,
    allgc: seq<Ref>,
    fixedgc: seq<Ref>,
    gray: seq<Ref>,
    grayagain: seq<Ref>,
    twups: seq<Ref>,
    sweepgc: Option<nat>,
    mainthread: Ref,
    running: Ref,
    registry: Ptr,
    mt: seq<Ptr>)

  function HeapOf(s: Snap): Heap {
    Heap(s.objs, s.ups)
  }

  function Ow(s: Snap): Color {
    OtherWhite(s.currentwhite)
  }

  function NonWhite(m: Marks): (r: set<Ref>) {
    set x | x in m && !IsWhite(m[x])
  }

  function Whites(m: Marks): set<Ref> {
    set x | x in m && IsWhite(m[x])
  }

  /** Objects that no sweep may free: not marked with the other white. */
  function Live(s: Snap): set<Ref> {
    set x | x in s.marked && s.marked[x] != Ow(s)
  }

  function PtrSet(ps: seq<Ptr>): set<Ref> {
    set i | 0 <= i < |ps| && ps[i].Some? :: ps[i].value
  }

  /** Where the program starts from. */
  function Roots(s: Snap): set<Ref> {
    {s.mainthread, s.running} + PtrSet([s.registry] + s.mt)
  }

  ghost predicate Accessible(s: Snap, x: Ref) {
    Reachable(HeapOf(s), Roots(s), x)
  }

  // ---- What always holds ----

  function Count(b: bool): nat {
    if b then 1 else 0
  }

  /** How often `x` is on a list of all objects; the main thread is on none. */
  function Owners(s: Snap, x: Ref): nat {
    multiset(s.allgc)[x] + multiset(s.fixedgc)[x] + Count(x == s.mainthread)
  }

  ghost predicate FixedOk(s: Snap) {
    forall x :: x in s.fixedgc ==> IsFixed(s, x)
  }

  predicate IsFixed(s: Snap, x: Ref) {
    x in s.objs && x in s.marked && s.objs[x].Str? && s.marked[x].Gray?
  }

  /** Every object is on exactly one list of all objects, once; upvalues and marks
      are in order. */
  ghost predicate Structure(s: Snap) {
    && s.marked.Keys == s.objs.Keys && IsWhite(s.currentwhite)
    && IsThread(HeapOf(s), s.mainthread) && IsThread(HeapOf(s), s.running)
    && (forall x {:trigger Owners(s, x)} :: Owners(s, x) == Count(x in s.objs))
    && FixedOk(s) && UpvaluesOk(HeapOf(s))
  }

  /** Live objects refer to live objects only. */
  ghost predicate LiveOk(s: Snap) {
    ClosedSet(HeapOf(s), Live(s)) && Roots(s) <= Live(s)
  }

  // ---- While marking ----

  /** A closure may be black although an open upvalue of it has a white value:
      the upvalue was touched and its thread is going to be looked at, or, in the
      atomic step, the thread itself is marked. */
  predicate Excused(h: Heap, m: Marks, u: Up, waiting: set<Ref>, atomic: bool) {
    && u in h.ups && h.ups[u].Open?
    && ((h.ups[u].touched && h.ups[u].thread in waiting) ||
        (atomic && h.ups[u].thread in m && !IsWhite(m[h.ups[u].thread])))
  }

  /** During the propagation every open upvalue of a black closure is excused, as
      its value may change without notice. */
  predicate UpBlackOk(h: Heap, m: Marks, u: Up, waiting: set<Ref>, atomic: bool) {
    Excused(h, m, u, waiting, atomic) ||
    (PtrIn(UpValue(h, u), NonWhite(m)) && (u in h.ups && h.ups[u].Open? ==> atomic))
  }

  /** No reference from the object to a white one. */
  predicate BlackOk(h: Heap, m: Marks, o: Obj, waiting: set<Ref>, atomic: bool) {
    && AllIn(Direct(o), NonWhite(m)) && PtrIn(CacheOf(o), NonWhite(m))
    && forall i :: 0 <= i < |UpvalsOf(o)| ==> UpBlackOk(h, m, UpvalsOf(o)[i], waiting, atomic)
  }

  /** How often `x` is on the gray lists. */
  function OnLists(gray: seq<Ref>, again: seq<Ref>, done: seq<Ref>, x: Ref): nat {
    multiset(gray)[x] + multiset(again)[x] + multiset(done)[x]
  }

  predicate MustBeListed(m: Marks, fixed: seq<Ref>, x: Ref) {
    x in m && m[x].Gray? && x !in fixed
  }

  /** A thread that the atomic step has traversed. */
  predicate DoneOk(s: Snap, th: Ref) {
    && IsThread(HeapOf(s), th) && AllIn(s.objs[th].stack, NonWhite(s.marked))
    && (s.objs[th].openupval != [] ==> th in s.twups)
  }

  predicate ColorOk(s: Snap, x: Ref)
    requires x in s.marked
  {
    && s.marked[x] != Ow(s)
    && x in s.objs
    && (s.objs[x].Thread? ==> !s.marked[x].Black?)
    && (s.objs[x].Str? && x !in s.fixedgc ==> !s.marked[x].Gray?)
    && (s.objs[x].Udata? ==> !s.marked[x].Gray?)
  }

  ghost predicate ColorsOk(s: Snap) {
    forall x {:trigger ColorOk(s, x)} :: x in s.marked ==> ColorOk(s, x)
  }

  /** No black object refers to a white one, those of `except` aside. */
  ghost predicate BlacksOk(s: Snap, waiting: set<Ref>, atomic: bool, except: set<Ref>) {
    forall x {:trigger BlackAt(s, x, waiting, atomic)} :: x in s.marked && s.marked[x].Black? && x !in except ==>
      BlackAt(s, x, waiting, atomic)
  }

  ghost predicate BlackAt(s: Snap, x: Ref, waiting: set<Ref>, atomic: bool) {
    x in s.objs && BlackOk(HeapOf(s), s.marked, s.objs[x], waiting, atomic)
  }

  ghost predicate DonesOk(s: Snap, done: seq<Ref>) {
    forall th {:trigger DoneOk(s, th)} :: th in done ==> DoneOk(s, th)
  }

  /** The main invariant: no black object points to a white one, every gray object
      is on one gray list, once, unless it is fixed, and there is no other white. */
  ghost predicate TriColor(s: Snap, again: seq<Ref>, done: seq<Ref>, waiting: set<Ref>, atomic: bool,
                           except: set<Ref>) {
    && ColorsOk(s) && BlacksOk(s, waiting, atomic, except)
    && (forall x {:trigger OnLists(s.gray, again, done, x)} ::
          OnLists(s.gray, again, done, x) == Count(MustBeListed(s.marked, s.fixedgc, x)))
    && DonesOk(s, done)
  }

  ghost function ToSet(l: seq<Ref>): set<Ref> {
    set x | x in l
  }

  ghost predicate MarkingOk(s: Snap, except: set<Ref>) {
    && TriColor(s, s.grayagain, [], ToSet(s.twups), false, except)
    && s.mainthread in NonWhite(s.marked)
    && s.sweepgc.None?
  }

  // ---- While sweeping ----

  /** What the sweep has passed is white again. */
  ghost predicate SweptOk(s: Snap) {
    forall i :: 0 <= i < |s.allgc| && (s.sweepgc.Some? ==> i < s.sweepgc.value) ==>
      s.allgc[i] in s.marked && s.marked[s.allgc[i]] == s.currentwhite
  }

  ghost predicate SweepOk(s: Snap) {
    && SweptOk(s) && s.mainthread in NonWhite(s.marked)
    && (s.sweepgc.Some? ==> s.sweepgc.value <= |s.allgc|)
    && (s.gcstate != SwpAllGc ==> s.sweepgc.None?)
  }

  ghost predicate RestOk(s: Snap) {
    && s.sweepgc.None? && forall x :: x in s.marked && x !in s.fixedgc ==> s.marked[x] == s.currentwhite
  }

  /** The order of the states in a cycle. */
  function NextPhase(p: Phase): Phase {
    match p
    case Pause => Propagate
    case Propagate => Atomic
    case Atomic => SwpAllGc
    case SwpAllGc => SwpFinObj
    case SwpFinObj => SwpToBeFnz
    case SwpToBeFnz => SwpEnd
    case SwpEnd => CallFin
    case CallFin => Pause
    case InsideAtomic => InsideAtomic
  }

  function AllPhases(): set<Phase> {
    {Propagate, Atomic, SwpAllGc, SwpFinObj, SwpToBeFnz, SwpEnd, CallFin, Pause}
  }

  lemma OtherPhases()
    ensures Propagate in AllPhases() - {Pause} && InsideAtomic !in AllPhases() - {Pause}
  {
  }

  function Position(p: Phase): nat {
    match p
    case Propagate => 0
    case Atomic => 1
    case SwpAllGc => 2
    case SwpFinObj => 3
    case SwpToBeFnz => 4
    case SwpEnd => 5
    case CallFin => 6
    case Pause => 7
    case InsideAtomic => 8
  }

  /** State changes from `p` to `target`. */
  function Distance(p: Phase, target: Phase): nat {
    if Position(p) <= Position(target) then Position(target) - Position(p) else Position(target) + 8 - Position(p)
  }

  lemma CloserTo(p: Phase, target: Phase)
    requires p != target && !p.InsideAtomic? && !target.InsideAtomic?
    ensures Distance(NextPhase(p), target) < Distance(p, target)
  {
  }

  predicate KeepInvariant(p: Phase) {
    p.Propagate? || p.Atomic?
  }

  predicate SweepPhase(p: Phase) {
    p.SwpAllGc? || p.SwpFinObj? || p.SwpToBeFnz? || p.SwpEnd?
  }

  /** What holds in every state between two actions of the program. Live threads
      with open upvalues are listed, and only live threads are. */
  ghost predicate Common(s: Snap) {
    && Structure(s) && LiveOk(s)
    && (forall th :: th in s.twups ==> IsThread(HeapOf(s), th) && th in Live(s))
    && (forall th :: th in Live(s) && HasOpen(HeapOf(s), th) ==> th in s.twups)
  }

  ghost predicate MarkPhaseOk(s: Snap, except: set<Ref>) {
    KeepInvariant(s.gcstate) && Common(s) && MarkingOk(s, except) && (s.gcstate.Propagate? ==> s.gray != [])
  }

  ghost predicate SweepPhaseOk(s: Snap) {
    SweepPhase(s.gcstate) && Common(s) && SweepOk(s)
  }

  ghost predicate RestPhaseOk(s: Snap) {
    (s.gcstate.CallFin? || s.gcstate.Pause?) && Common(s) && RestOk(s)
  }

  /** The invariant of the collector, except that the objects of `except` may be
      black and refer to white ones. */
  ghost predicate InvExcept(s: Snap, except: set<Ref>) {
    MarkPhaseOk(s, except) || SweepPhaseOk(s) || RestPhaseOk(s)
  }

  /** The invariant of the collector. */
  ghost predicate Inv(s: Snap) {
    InvExcept(s, {})
  }

  /** Whatever the program can get at exists and is not condemned. */
  lemma AccessibleIsLive(s: Snap, x: Ref)
    requires LiveOk(s) && Accessible(s, x)
    ensures x in Live(s) && x in s.objs
  {
    var p :| IsPath(HeapOf(s), Roots(s), p) && p[|p| - 1] == x;
    ReachableStays(HeapOf(s), Roots(s), Live(s), p);
    assert StaysIn(HeapOf(s), x, Live(s));
  }

  lemma BlackOfInv(s: Snap, a: Ref)
    requires Inv(s) && KeepInvariant(s.gcstate) && a in s.marked && s.marked[a].Black?
    ensures BlackAt(s, a, ToSet(s.twups), false)
  {
  }

  /** In the mark phase a black object refers to a white one only through an open
      upvalue that has been touched and whose thread is going to be looked at. */
  lemma BlackToWhite(s: Snap, a: Ref, b: Ref)
    requires Inv(s) && KeepInvariant(s.gcstate) && a in s.marked && s.marked[a].Black? && Edge(HeapOf(s), a, b)
    ensures b in s.marked
    ensures IsWhite(s.marked[b]) ==>
              exists u :: u in UpvalsOf(s.objs[a]) && UpValue(HeapOf(s), u) == Some(b) &&
                          u in s.ups && s.ups[u].Open? && s.ups[u].touched && s.ups[u].thread in s.twups
  {
    BlackOfInv(s, a);
    assert ColorOk(s, a);
    EdgeStays(HeapOf(s), Live(s), a, b);
    var o := s.objs[a];
    if Some(b) in Direct(o) {
      var i :| 0 <= i < |Direct(o)| && Direct(o)[i] == Some(b);
    } else {
      var u :| u in UpvalsOf(o) && UpValue(HeapOf(s), u) == Some(b);
      var i :| 0 <= i < |UpvalsOf(o)| && UpvalsOf(o)[i] == u;
      assert UpBlackOk(HeapOf(s), s.marked, UpvalsOf(o)[i], ToSet(s.twups), false);
    }
  }

  /** In the mark phase the gray objects are those on the two gray lists, each once;
      fixed ones are gray and on none. */
  lemma GrayIsListed(s: Snap, x: Ref)
    requires Inv(s) && KeepInvariant(s.gcstate)
    ensures multiset(s.gray)[x] + multiset(s.grayagain)[x] == Count(x in s.marked && s.marked[x].Gray? &&
                                                                    x !in s.fixedgc)
  {
    assert OnLists(s.gray, s.grayagain, [], x) == Count(MustBeListed(s.marked, s.fixedgc, x));
  }

  /** Outside the sweep nothing is condemned. */
  lemma NoOtherWhite(s: Snap, x: Ref)
    requires Inv(s) && !SweepPhase(s.gcstate) && x in s.marked
    ensures s.marked[x] != Ow(s)
  {
    if KeepInvariant(s.gcstate) {
      assert ColorOk(s, x);
    } else if x in s.fixedgc {
      assert IsFixed(s, x);
    }
  }
}
