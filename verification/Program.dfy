/** Whole runs: any sequence of actions of a program that only ever uses what it can
    get at, with steps of the collector anywhere in between. */
module Program {
  import opened LuaValues
  import opened GcHeap
  import opened GcState
  import opened GcSweeping
  import opened GcFields
  import opened Collector
  import opened Mutator

  /** Operands are slots of the stack of the running thread; `at` and `up` are the
      addresses that the allocator returns. An action whose operands do not fit does
      nothing. */
  datatype Action =
    | NewObject(at: Ref, kind: Kind)
    | NewCClosure(n: nat, at: Ref)
    | Copy(i: nat)
    | SetSlot(i: nat, j: nat)
    | PushOn(i: nat, j: nat)
    | SetSlotOn(i: nat, k: nat, j: nat)
    | SetTopTo(n: nat)
    | GetField(i: nat, k: nat)
    | SetField(i: nat, k: nat, j: nat)
    | GetMeta(i: nat)
    | SetMeta(i: nat, j: nat)
    | GetUser(i: nat)
    | SetUser(i: nat, j: nat)
    | AddConstant(i: nat, j: nat)
    | MakeClosure(i: nat, encl: nat, base: nat, at: Ref, up: Up)
    | GetUp(i: nat, n: nat)
    | SetUp(i: nat, n: nat, j: nat)
    | GetCUp(i: nat, n: nat)
    | SetCUp(i: nat, n: nat, j: nat)
    | CloseFrom(level: nat)
    | Resume(i: nat)
    | GetProto(i: nat)
    | GetPart(i: nat, k: nat)
    | GetGlobals
    | SetGlobals(i: nat)
    | GetTypeMeta(t: nat)
    | SetTypeMeta(t: nat, i: nat)
    | FixNewest
    | Collect
    | CollectAll

  datatype Kind = AString | ATable | AUserdata | AThread | AProto(upvalues: seq<Upvaldesc>)

  /** A new object refers to nothing. */
  function Blank(k: Kind): (o: Obj)
    ensures forall i :: 0 <= i < |Direct(o)| ==> Direct(o)[i].None?
    ensures o.Str? == k.AString? && o.Table? == k.ATable? && o.Udata? == k.AUserdata? && o.Thread? == k.AThread?
    ensures k.AProto? ==> o.Proto? && o.parts == [] && o.cache.None? && o.upvalues == k.upvalues
    ensures k.ATable? ==> o.slots == []
    ensures k.AThread? ==> o.stack == [] && o.openupval == []
  {
    match k
    case AString => Str
    case ATable => Table(None, [])
    case AUserdata => Udata(None, None)
    case AThread => Thread([], [])
    case AProto(ds) => Proto([], None, ds)
  }

  // ---- What the actions do ----

  function PutStack(objs: map<Ref, Obj>, th: Ref, stack: seq<Ptr>): map<Ref, Obj> {
    if th in objs && objs[th].Thread? then objs[th := objs[th].(stack := stack)] else objs
  }

  function Pushed(objs: map<Ref, Obj>, th: Ref, v: Ptr): map<Ref, Obj> {
    PutStack(objs, th, StackOf(objs, th) + [v])
  }

  /** The value in a slot of the running thread, nil if there is no such slot. */
  function Slot(s: Snap, i: nat): Ptr {
    var stack := StackOf(s.objs, s.running);
    if i < |stack| then stack[i] else None
  }

  /** The object in a slot; a string stands for everything else. */
  function Target(s: Snap, i: nat): Obj {
    if Slot(s, i).Some? && Slot(s, i).value in s.objs then s.objs[Slot(s, i).value] else Str
  }

  // The objects after actions that touch no upvalue and no root.

  function AfterNewObject(s: Snap, at: Ref, kind: Kind): map<Ref, Obj> {
    if at in s.objs then s.objs else Pushed(s.objs[at := Blank(kind)], s.running, Some(at))
  }

  function AfterNewCClosure(s: Snap, n: nat, at: Ref): map<Ref, Obj> {
    var stack := StackOf(s.objs, s.running);
    if at in s.objs || n > |stack| || OpenAbove(s, |stack| - n) then s.objs
    else
      PutStack(s.objs[at := CClosure(stack[|stack| - n..])], s.running, stack[..|stack| - n] + [Some(at)])
  }

  function AfterCopy(s: Snap, i: nat): map<Ref, Obj> {
    Pushed(s.objs, s.running, Slot(s, i))
  }

  function AfterSetSlot(s: Snap, i: nat, j: nat): map<Ref, Obj> {
    if i < |StackOf(s.objs, s.running)| then PutStack(s.objs, s.running, StackOf(s.objs, s.running)[i := Slot(s, j)])
    else s.objs
  }

  function AfterPushOn(s: Snap, i: nat, j: nat): map<Ref, Obj> {
    if Slot(s, i).None? then s.objs else Pushed(s.objs, Slot(s, i).value, Slot(s, j))
  }

  function AfterSetSlotOn(s: Snap, i: nat, k: nat, j: nat): map<Ref, Obj> {
    if Slot(s, i).Some? && k < |StackOf(s.objs, Slot(s, i).value)|
    then PutStack(s.objs, Slot(s, i).value, StackOf(s.objs, Slot(s, i).value)[k := Slot(s, j)])
    else s.objs
  }

  function AfterGetField(s: Snap, i: nat, k: nat): map<Ref, Obj> {
    if Target(s, i).Table? && k < |Target(s, i).slots|
    then Pushed(s.objs, s.running, Target(s, i).slots[k]) else s.objs
  }

  function AfterSetField(s: Snap, i: nat, k: nat, j: nat): map<Ref, Obj> {
    if Target(s, i).Table?
    then
      var t := s.objs[Slot(s, i).value];
      s.objs[Slot(s, i).value := t.(slots := SetAt(t.slots, k, Slot(s, j)))]
    else s.objs
  }

  function AfterGetMeta(s: Snap, i: nat): map<Ref, Obj> {
    if Target(s, i).Table? || Target(s, i).Udata?
    then Pushed(s.objs, s.running, Target(s, i).metatable) else s.objs
  }

  function AfterSetMeta(s: Snap, i: nat, j: nat): map<Ref, Obj> {
    if Target(s, i).Table?
    then s.objs[Slot(s, i).value := Table(Slot(s, j), Target(s, i).slots)]
    else if Target(s, i).Udata?
    then s.objs[Slot(s, i).value := Udata(Slot(s, j), Target(s, i).user)]
    else s.objs
  }

  function AfterGetUser(s: Snap, i: nat): map<Ref, Obj> {
    if Target(s, i).Udata? then Pushed(s.objs, s.running, Target(s, i).user) else s.objs
  }

  function AfterSetUser(s: Snap, i: nat, j: nat): map<Ref, Obj> {
    if Target(s, i).Udata?
    then s.objs[Slot(s, i).value := Target(s, i).(user := Slot(s, j))] else s.objs
  }

  function AfterAddConstant(s: Snap, i: nat, j: nat): map<Ref, Obj> {
    if Target(s, i).Proto?
    then s.objs[Slot(s, i).value := Target(s, i).(parts := Target(s, i).parts + [Slot(s, j)])]
    else s.objs
  }

  function AfterGetUp(s: Snap, i: nat, n: nat): map<Ref, Obj> {
    if n < |UpvalsOf(Target(s, i))|
    then Pushed(s.objs, s.running, UpValue(HeapOf(s), UpvalsOf(s.objs[Slot(s, i).value])[n])) else s.objs
  }

  function AfterGetCUp(s: Snap, i: nat, n: nat): map<Ref, Obj> {
    if Target(s, i).CClosure? && n < |Target(s, i).values|
    then Pushed(s.objs, s.running, Target(s, i).values[n]) else s.objs
  }

  function AfterSetCUp(s: Snap, i: nat, n: nat, j: nat): map<Ref, Obj> {
    if Target(s, i).CClosure? && n < |Target(s, i).values|
    then s.objs[Slot(s, i).value := CClosure(Target(s, i).values[n := Slot(s, j)])] else s.objs
  }

  function AfterGetProto(s: Snap, i: nat): map<Ref, Obj> {
    if Target(s, i).LClosure? then Pushed(s.objs, s.running, Target(s, i).proto) else s.objs
  }

  function AfterGetPart(s: Snap, i: nat, k: nat): map<Ref, Obj> {
    if Target(s, i).Proto? && k < |Target(s, i).parts|
    then Pushed(s.objs, s.running, Target(s, i).parts[k]) else s.objs
  }

  function AfterGetTypeMeta(s: Snap, t: nat): map<Ref, Obj> {
    if t < |s.mt| then Pushed(s.objs, s.running, s.mt[t]) else s.objs
  }

  function AfterGetGlobals(s: Snap): map<Ref, Obj> {
    Pushed(s.objs, s.running, s.registry)
  }

  /** An upvalue of the running thread is open at this level or above. */
  predicate OpenAbove(s: Snap, level: nat) {
    exists u :: u in s.ups && OpenIn(HeapOf(s), u, s.running) && s.ups[u].slot >= level
  }

  /** The stack has another size, and exactly the upvalues from the level up have been
      closed, with the values that they had. */
  ghost predicate Cut(s: Snap, s': Snap, level: nat, stack: seq<Ptr>) {
    && SameRoots(s, s') && IsThread(HeapOf(s), s.running) && IsThread(HeapOf(s'), s.running)
    && var h := Heap(s'.objs[s.running := s'.objs[s.running].(stack := StackOf(s.objs, s.running))], s'.ups);
       && ClosedUps(HeapOf(s), h, s.running) && ClosedFrom(HeapOf(s), h, s.running, level)
       && s'.objs == PutStack(h.objs, s.running, stack)
  }

  function EnclosingUps(s: Snap, encl: nat): seq<Up> {
    UpvalsOf(Target(s, encl))
  }

  /** The operands of a new closure fit. */
  predicate CanClose(s: Snap, i: nat, encl: nat, base: nat, at: Ref, up: Up) {
    && Target(s, i).Proto? && at !in s.objs && (forall u :: u in s.ups ==> u < up)
    && DescsFit(HeapOf(s), s.running, base, EnclosingUps(s, encl), Target(s, i).upvalues)
  }

  /** The closure that a prototype remembers has the upvalues that a new one would get. */
  predicate CacheServes(s: Snap, p: Ref, encup: seq<Up>, base: nat)
    requires p in s.objs && s.objs[p].Proto?
  {
    && s.objs[p].cache.Some? && IsClosureOf(s.objs, s.objs[p].cache.value, p)
    && InstallsAll(HeapOf(s), s.running, base, encup, s.objs[p].upvalues, s.objs[s.objs[p].cache.value].upvals)
  }

  /** OP_CLOSURE: the remembered closure or a new one. */
  ghost predicate ClosureGot(s: Snap, s': Snap, i: nat, encl: nat, base: nat, at: Ref, up: Up) {
    if !CanClose(s, i, encl, base, at, up) then OnlyObjs(s, s', s.objs)
    else if CacheServes(s, Slot(s, i).value, EnclosingUps(s, encl), base)
    then OnlyObjs(s, s', Pushed(s.objs, s.running, Target(s, i).cache))
    else NewClosure(s, s', Slot(s, i).value, EnclosingUps(s, encl), base, at)
  }

  ghost predicate UpSet(s: Snap, s': Snap, i: nat, n: nat, j: nat) {
    if n < |UpvalsOf(Target(s, i))| then UpvalueSet(s, s', UpvalsOf(Target(s, i))[n], Slot(s, j))
    else OnlyObjs(s, s', s.objs)
  }

  ghost predicate SameHeap(s: Snap, s': Snap) {
    s'.objs == s.objs && s'.ups == s.ups && s'.mainthread == s.mainthread
  }

  ghost predicate RootsAre(s: Snap, running: Ref, registry: Ptr, mt: seq<Ptr>, fixedgc: seq<Ref>) {
    s.running == running && s.registry == registry && s.mt == mt && s.fixedgc == fixedgc
  }

  ghost predicate Resumed(s: Snap, s': Snap, i: nat) {
    var running := if Target(s, i).Thread? then Slot(s, i).value else s.running;
    SameHeap(s, s') && RootsAre(s', running, s.registry, s.mt, s.fixedgc)
  }

  ghost predicate Fixed(s: Snap, s': Snap) {
    var fixedgc := if CanFix(s) then [s.allgc[0]] + s.fixedgc else s.fixedgc;
    SameHeap(s, s') && RootsAre(s', s.running, s.registry, s.mt, fixedgc)
  }

  /** What an action leaves behind. */
  ghost predicate Did(s: Snap, a: Action, s': Snap) {
    match a
    case Collect => Safe(s, s')
    case CollectAll => Safe(s, s') && s'.gcstate.Pause?
    case SetTopTo(n) => Cut(s, s', n, Resized(StackOf(s.objs, s.running), n))
    case CloseFrom(level) => Cut(s, s', level, StackOf(s.objs, s.running))
    case MakeClosure(i, encl, base, at, up) => ClosureGot(s, s', i, encl, base, at, up)
    case SetUp(i, n, j) => UpSet(s, s', i, n, j)
    case Resume(i) => Resumed(s, s', i)
    case SetGlobals(i) => SameHeap(s, s') && RootsAre(s', s.running, Slot(s, i), s.mt, s.fixedgc)
    case SetTypeMeta(t, i) =>
      var mt := if t < |s.mt| then s.mt[t := Slot(s, i)] else s.mt;
      SameHeap(s, s') && RootsAre(s', s.running, s.registry, mt, s.fixedgc)
    case FixNewest => Fixed(s, s')
    case NewObject(at, kind) => OnlyObjs(s, s', AfterNewObject(s, at, kind))
    case NewCClosure(n, at) => OnlyObjs(s, s', AfterNewCClosure(s, n, at))
    case Copy(i) => OnlyObjs(s, s', AfterCopy(s, i))
    case SetSlot(i, j) => OnlyObjs(s, s', AfterSetSlot(s, i, j))
    case PushOn(i, j) => OnlyObjs(s, s', AfterPushOn(s, i, j))
    case SetSlotOn(i, k, j) => OnlyObjs(s, s', AfterSetSlotOn(s, i, k, j))
    case GetField(i, k) => OnlyObjs(s, s', AfterGetField(s, i, k))
    case SetField(i, k, j) => OnlyObjs(s, s', AfterSetField(s, i, k, j))
    case GetMeta(i) => OnlyObjs(s, s', AfterGetMeta(s, i))
    case SetMeta(i, j) => OnlyObjs(s, s', AfterSetMeta(s, i, j))
    case GetUser(i) => OnlyObjs(s, s', AfterGetUser(s, i))
    case SetUser(i, j) => OnlyObjs(s, s', AfterSetUser(s, i, j))
    case AddConstant(i, j) => OnlyObjs(s, s', AfterAddConstant(s, i, j))
    case GetUp(i, n) => OnlyObjs(s, s', AfterGetUp(s, i, n))
    case GetCUp(i, n) => OnlyObjs(s, s', AfterGetCUp(s, i, n))
    case SetCUp(i, n, j) => OnlyObjs(s, s', AfterSetCUp(s, i, n, j))
    case GetProto(i) => OnlyObjs(s, s', AfterGetProto(s, i))
    case GetPart(i, k) => OnlyObjs(s, s', AfterGetPart(s, i, k))
    case GetGlobals => OnlyObjs(s, s', AfterGetGlobals(s))
    case GetTypeMeta(t) => OnlyObjs(s, s', AfterGetTypeMeta(s, t))
  }

  /** Strings are fixed while the state is being built, right after their creation. */
  predicate CanFix(s: Snap) {
    s.gcstate.Pause? && s.allgc != [] && s.allgc[0] in s.objs && s.objs[s.allgc[0]].Str?
  }

  // ---- Doing them ----

  /** The object in a slot of the running thread, if there is one. */
  method Operand(g: GlobalState, i: nat) returns (v: Ptr)
    requires Inv(g.Now())
    ensures v == Slot(g.Now(), i) && (v.Some? ==> Held(g, v.value)) && HeldPtr(g, v)
    ensures IsThread(HeapOf(g.Now()), g.running) && Held(g, g.running)
  {
    RootsAreLive(g.Now());
    var stack := g.objs[g.running].stack;
    if i < |stack| {
      SlotIsHeld(g, g.running, i);
      v := stack[i];
    } else {
      v := None;
    }
  }

  lemma SlotIsHeld(g: GlobalState, th: Ref, i: nat)
    requires Inv(g.Now()) && Held(g, th) && g.objs[th].Thread? && i < |g.objs[th].stack|
    ensures g.objs[th].stack[i].Some? ==> Held(g, g.objs[th].stack[i].value)
  {
    PointerIsHeld(g, th, i);
  }

  lemma PointerIsHeld(g: GlobalState, x: Ref, i: nat)
    requires Inv(g.Now()) && Held(g, x) && i < |Direct(g.objs[x])|
    ensures Direct(g.objs[x])[i].Some? ==> Held(g, Direct(g.objs[x])[i].value)
  {
    var s := g.Now();
    assert StaysIn(HeapOf(s), x, Live(s));
    var p := Direct(g.objs[x])[i];
    assert PtrIn(p, Live(s));
    if p.Some? { assert StaysIn(HeapOf(s), p.value, Live(s)); }
  }

  lemma UpvalueIsHeld(g: GlobalState, c: Ref, i: nat)
    requires Inv(g.Now()) && Held(g, c) && i < |UpvalsOf(g.objs[c])|
    ensures UpvalsOf(g.objs[c])[i] in g.ups && HeldPtr(g, UpValue(HeapOf(g.Now()), UpvalsOf(g.objs[c])[i]))
  {
    var s := g.Now();
    assert StaysIn(HeapOf(s), c, Live(s)) && ClosureOk(HeapOf(s), s.objs[c]);
    assert PtrIn(UpValue(HeapOf(s), UpvalsOf(g.objs[c])[i]), Live(s));
  }

  /** No action breaks the invariant; a step of the collector takes nothing away that
      the program can get at, and every other action does what it is meant to do. */
  method Do(g: GlobalState, a: Action)
    requires Inv(g.Now())
    modifies g
    ensures Inv(g.Now()) && Did(old(g.Now()), a, g.Now())
  {
    if OnStacks(a) {
      DoOnStacks(g, a);
    } else if OnObjects(a) {
      DoOnObjects(g, a);
    } else {
      DoOther(g, a);
    }
  }

  predicate OnStacks(a: Action) {
    || a.NewObject? || a.NewCClosure? || a.Copy? || a.SetSlot? || a.PushOn? || a.SetSlotOn? || a.SetTopTo? ||
       a.CloseFrom?
    || a.MakeClosure? || a.GetUp? || a.SetUp?
  }

  predicate OnObjects(a: Action) {
    || a.GetField? || a.SetField? || a.GetMeta? || a.SetMeta? || a.GetUser? || a.SetUser? || a.AddConstant?
    || a.GetCUp? || a.SetCUp? || a.GetProto? || a.GetPart?
  }

  method DoOnStacks(g: GlobalState, a: Action)
    requires Inv(g.Now()) && OnStacks(a)
    modifies g
    ensures Inv(g.Now()) && Did(old(g.Now()), a, g.Now())
  {
    match a {
      case NewObject(at, kind) => DoNew(g, at, kind);
      case NewCClosure(n, at) => DoNewCClosure(g, n, at);
      case Copy(i) =>
        var v := Operand(g, i);
        Push(g, g.running, v);
      case SetSlot(i, j) => DoSetSlot(g, i, j);
      case PushOn(i, j) => DoPushOn(g, i, j);
      case SetSlotOn(i, k, j) => DoSetSlotOn(g, i, k, j);
      case SetTopTo(n) => DoSetTop(g, n);
      case CloseFrom(level) => DoClose(g, level);
      case MakeClosure(i, encl, base, at, up) => DoClosure(g, i, encl, base, at, up);
      case GetUp(i, n) => DoGetUp(g, i, n);
      case SetUp(i, n, j) => DoSetUp(g, i, n, j);
    }
  }

  method DoOnObjects(g: GlobalState, a: Action)
    requires Inv(g.Now()) && OnObjects(a)
    modifies g
    ensures Inv(g.Now()) && Did(old(g.Now()), a, g.Now())
  {
    match a {
      case GetField(i, k) => DoGetField(g, i, k);
      case SetField(i, k, j) => DoSetField(g, i, k, j);
      case GetMeta(i) => DoGetMeta(g, i);
      case SetMeta(i, j) => DoSetMeta(g, i, j);
      case GetUser(i) => DoGetUser(g, i);
      case SetUser(i, j) => DoSetUser(g, i, j);
      case AddConstant(i, j) => DoAddConstant(g, i, j);
      case GetCUp(i, n) => DoGetCUp(g, i, n);
      case SetCUp(i, n, j) => DoSetCUp(g, i, n, j);
      case GetProto(i) => DoGetProto(g, i);
      case GetPart(i, k) => DoGetPart(g, i, k);
    }
  }

  method DoOther(g: GlobalState, a: Action)
    requires Inv(g.Now()) && !OnStacks(a) && !OnObjects(a)
    modifies g
    ensures Inv(g.Now()) && Did(old(g.Now()), a, g.Now())
  {
    match a {
      case Collect => g.SingleStep();
      case CollectAll => ghost var start := g.FullGc();
      case Resume(i) => DoResume(g, i);
      case GetGlobals =>
        RootsAreLive(g.Now());
        Push(g, g.running, g.registry);
      case SetGlobals(i) =>
        var v := Operand(g, i);
        SetRegistry(g, v);
      case SetTypeMeta(t, i) => DoSetTypeMeta(g, t, i);
      case GetTypeMeta(t) => DoGetTypeMeta(g, t);
      case FixNewest => DoFix(g);
    }
  }

  method DoNew(g: GlobalState, at: Ref, kind: Kind)
    requires Inv(g.Now())
    modifies g
    ensures Inv(g.Now()) && OnlyObjs(old(g.Now()), g.Now(), AfterNewObject(old(g.Now()), at, kind))
  {
    RootsAreLive(g.Now());
    if at !in g.objs {
      CreateAndPush(g, g.running, at, Blank(kind));
    }
  }

  /** lua_pushcclosure: the values on top of the stack become upvalues. */
  method DoNewCClosure(g: GlobalState, n: nat, at: Ref)
    requires Inv(g.Now())
    modifies g
    ensures Inv(g.Now()) && OnlyObjs(old(g.Now()), g.Now(), AfterNewCClosure(old(g.Now()), n, at))
  {
    ghost var s := g.Now();
    RootsAreLive(s);
    var th := g.running;
    var stack := g.objs[th].stack;
    if at in g.objs || n > |stack| {
      return;
    }
    var above := HasOpenAbove(g, |stack| - n);
    if !above {
      ValuesAreHeld(s, th, |stack| - n);
      PushCClosure(g, th, n, at);
    }
  }

  method HasOpenAbove(g: GlobalState, level: nat) returns (b: bool)
    ensures b == OpenAbove(g.Now(), level)
    ensures !b ==> OpenBelow(g, g.running, level)
  {
    b := exists u :: u in g.ups.Keys && g.ups[u].Open? && g.ups[u].thread == g.running && g.ups[u].slot >= level;
  }

  method PushCClosure(g: GlobalState, th: Ref, n: nat, at: Ref)
    requires Inv(g.Now()) && Held(g, th) && g.objs[th].Thread? && n <= |g.objs[th].stack| && at !in g.objs
    requires OpenBelow(g, th, |g.objs[th].stack| - n)
    requires PointsInto(HeapOf(g.Now()), CClosure(g.objs[th].stack[|g.objs[th].stack| - n..]), Live(g.Now()))
    modifies g`objs, g`marked, g`allgc, g`sweepgc
    ensures Inv(g.Now())
    ensures var stack := old(g.objs)[th].stack;
            g.objs == old(g.objs)[at := CClosure(stack[|stack| - n..])]
                        [th := old(g.objs)[th].(stack := stack[..|stack| - n] + [Some(at)])]
  {
    var k := |g.objs[th].stack| - n;
    ghost var t := g.objs[th];
    Create(g, at, CClosure(g.objs[th].stack[k..]));
    assert th != at && g.objs[th] == t;
    PopAndPush(g, th, k, Some(at));
    assert g.objs[th] == t.(stack := t.stack[..k] + [Some(at)]);
  }

  lemma ValuesAreHeld(s: Snap, th: Ref, from: nat)
    requires Inv(s) && th in Live(s) && IsThread(HeapOf(s), th) && from <= |s.objs[th].stack|
    ensures PointsInto(HeapOf(s), CClosure(s.objs[th].stack[from..]), Live(s))
  {
    assert StaysIn(HeapOf(s), th, Live(s));
    var stack := s.objs[th].stack;
    forall i | 0 <= i < |stack[from..]| ensures PtrIn(stack[from..][i], Live(s)) {
      assert PtrIn(Direct(s.objs[th])[from + i], Live(s));
    }
  }

  /** OP_MOVE, lua_replace: a slot changes, without a barrier. */
  method DoSetSlot(g: GlobalState, i: nat, j: nat)
    requires Inv(g.Now())
    modifies g
    ensures Inv(g.Now()) && OnlyObjs(old(g.Now()), g.Now(), AfterSetSlot(old(g.Now()), i, j))
  {
    var v := Operand(g, j);
    if i < |g.objs[g.running].stack| {
      SetStack(g, g.running, i, v);
    }
  }

  /** A push onto the stack of a thread, which may not be the running one. */
  method DoPushOn(g: GlobalState, i: nat, j: nat)
    requires Inv(g.Now())
    modifies g
    ensures Inv(g.Now()) && OnlyObjs(old(g.Now()), g.Now(), AfterPushOn(old(g.Now()), i, j))
  {
    var th := Operand(g, i);
    var v := Operand(g, j);
    if th.Some? && g.objs[th.value].Thread? {
      Push(g, th.value, v);
    }
  }

  method DoSetSlotOn(g: GlobalState, i: nat, k: nat, j: nat)
    requires Inv(g.Now())
    modifies g
    ensures Inv(g.Now()) && OnlyObjs(old(g.Now()), g.Now(), AfterSetSlotOn(old(g.Now()), i, k, j))
  {
    var th := Operand(g, i);
    var v := Operand(g, j);
    if th.Some? && g.objs[th.value].Thread? && k < |g.objs[th.value].stack| {
      SetStack(g, th.value, k, v);
    }
  }

  method DoClose(g: GlobalState, level: nat)
    requires Inv(g.Now())
    modifies g
    ensures Inv(g.Now()) && Cut(old(g.Now()), g.Now(), level, old(StackOf(g.objs, g.running)))
  {
    ghost var s := g.Now();
    RootsAreLive(s);
    Close(g, g.running, level);
    IsCut(s, g.Now(), level, StackOf(s.objs, s.running), HeapOf(g.Now()));
  }

  /** The end of a block: upvalues are closed before the top goes down. */
  method DoSetTop(g: GlobalState, n: nat)
    requires Inv(g.Now())
    modifies g
    ensures Inv(g.Now()) && Cut(old(g.Now()), g.Now(), n, old(Resized(StackOf(g.objs, g.running), n)))
  {
    ghost var s := g.Now();
    RootsAreLive(s);
    var th := g.running;
    Close(g, th, n);
    ghost var h := HeapOf(g.Now());
    ClosedBelow(HeapOf(s), h, th, n);
    SetTop(g, th, n);
    IsCut(s, g.Now(), n, Resized(StackOf(s.objs, th), n), h);
  }

  lemma IsCut(s: Snap, s': Snap, level: nat, stack: seq<Ptr>, h: Heap)
    requires SameRoots(s, s') && ClosedUps(HeapOf(s), h, s.running) && ClosedFrom(HeapOf(s), h, s.running, level)
    requires s'.ups == h.ups && s'.objs == PutStack(h.objs, s.running, stack)
    ensures Cut(s, s', level, stack)
  {
    assert s'.objs[s.running := s'.objs[s.running].(stack := StackOf(s.objs, s.running))] == h.objs;
  }

  /** After closing, what is still open is below the level. */
  lemma ClosedBelow(h: Heap, h': Heap, th: Ref, n: nat)
    requires ClosedUps(h, h', th) && ClosedFrom(h, h', th, n)
    ensures forall u :: u in h'.ups && OpenIn(h', u, th) ==> h'.ups[u].slot < n
  {
    forall u | u in h'.ups && OpenIn(h', u, th) ensures h'.ups[u].slot < n {
      assert ClosedAt(h, h', th, u);
    }
  }

  method DoGetField(g: GlobalState, i: nat, k: nat)
    requires Inv(g.Now())
    modifies g
    ensures Inv(g.Now()) && OnlyObjs(old(g.Now()), g.Now(), AfterGetField(old(g.Now()), i, k))
  {
    var t := Operand(g, i);
    if t.Some? && g.objs[t.value].Table? && k < |g.objs[t.value].slots| {
      PointerIsHeld(g, t.value, k + 1);
      Push(g, g.running, g.objs[t.value].slots[k]);
    }
  }

  method DoSetField(g: GlobalState, i: nat, k: nat, j: nat)
    requires Inv(g.Now())
    modifies g
    ensures Inv(g.Now()) && OnlyObjs(old(g.Now()), g.Now(), AfterSetField(old(g.Now()), i, k, j))
  {
    var t := Operand(g, i);
    var v := Operand(g, j);
    if t.Some? && g.objs[t.value].Table? {
      StoreSlot(g, t.value, k, v);
    }
  }

  method DoGetMeta(g: GlobalState, i: nat)
    requires Inv(g.Now())
    modifies g
    ensures Inv(g.Now()) && OnlyObjs(old(g.Now()), g.Now(), AfterGetMeta(old(g.Now()), i))
  {
    var o := Operand(g, i);
    if o.Some? && (g.objs[o.value].Table? || g.objs[o.value].Udata?) {
      PointerIsHeld(g, o.value, 0);
      Push(g, g.running, g.objs[o.value].metatable);
    }
  }

  method DoSetMeta(g: GlobalState, i: nat, j: nat)
    requires Inv(g.Now())
    modifies g
    ensures Inv(g.Now()) && OnlyObjs(old(g.Now()), g.Now(), AfterSetMeta(old(g.Now()), i, j))
  {
    var o := Operand(g, i);
    var v := Operand(g, j);
    if o.Some? && (g.objs[o.value].Table? || g.objs[o.value].Udata?) {
      SetMetatable(g, o.value, v);
    }
  }

  method DoGetUser(g: GlobalState, i: nat)
    requires Inv(g.Now())
    modifies g
    ensures Inv(g.Now()) && OnlyObjs(old(g.Now()), g.Now(), AfterGetUser(old(g.Now()), i))
  {
    var o := Operand(g, i);
    if o.Some? && g.objs[o.value].Udata? {
      PointerIsHeld(g, o.value, 1);
      Push(g, g.running, g.objs[o.value].user);
    }
  }

  method DoSetUser(g: GlobalState, i: nat, j: nat)
    requires Inv(g.Now())
    modifies g
    ensures Inv(g.Now()) && OnlyObjs(old(g.Now()), g.Now(), AfterSetUser(old(g.Now()), i, j))
  {
    var o := Operand(g, i);
    var v := Operand(g, j);
    if o.Some? && g.objs[o.value].Udata? {
      SetUserValue(g, o.value, v);
    }
  }

  method DoAddConstant(g: GlobalState, i: nat, j: nat)
    requires Inv(g.Now())
    modifies g
    ensures Inv(g.Now()) && OnlyObjs(old(g.Now()), g.Now(), AfterAddConstant(old(g.Now()), i, j))
  {
    var p := Operand(g, i);
    var v := Operand(g, j);
    if p.Some? && g.objs[p.value].Proto? {
      AddPart(g, p.value, v);
    }
  }

  /** OP_CLOSURE: the remembered closure if it fits, else a new one. */
  method DoClosure(g: GlobalState, i: nat, encl: nat, base: nat, at: Ref, up: Up)
    requires Inv(g.Now())
    modifies g
    ensures Inv(g.Now()) && ClosureGot(old(g.Now()), g.Now(), i, encl, base, at, up)
  {
    ghost var s := g.Now();
    var p := Operand(g, i);
    var e := Operand(g, encl);
    if p.None? || !g.objs[p.value].Proto? || at in g.objs || exists u :: u in g.ups.Keys && u >= up {
      return;
    }
    var encup := if e.Some? then UpvalsOf(g.objs[e.value]) else [];
    assert encup == EnclosingUps(s, encl);
    if !DescsFit(Heap(g.objs, g.ups), g.running, base, encup, g.objs[p.value].upvalues) {
      return;
    }
    forall k | 0 <= k < |encup| ensures PtrIn(UpValue(HeapOf(g.Now()), encup[k]), Live(g.Now())) {
      UpvalueIsHeld(g, e.value, k);
    }
    FetchClosure(g, p.value, encup, base, at, up);
  }

  method FetchClosure(g: GlobalState, p: Ref, encup: seq<Up>, base: nat, at: Ref, up: Up)
    requires Inv(g.Now()) && Held(g, p) && g.objs[p].Proto? && at !in g.objs
    requires DescsFit(HeapOf(g.Now()), g.running, base, encup, g.objs[p].upvalues)
    requires forall i :: 0 <= i < |encup| ==> PtrIn(UpValue(HeapOf(g.Now()), encup[i]), Live(g.Now()))
    requires forall u :: u in g.ups ==> u < up
    modifies g
    ensures Inv(g.Now())
    ensures if CacheServes(old(g.Now()), p, encup, base)
            then OnlyObjs(old(g.Now()), g.Now(), Pushed(old(g.objs), old(g.running), old(g.objs)[p].cache))
            else NewClosure(old(g.Now()), g.Now(), p, encup, base, at)
  {
    RootsAreLive(g.Now());
    var cached := GetCached(g, p, g.running, encup, base);
    if cached.Some? {
      Push(g, g.running, cached);
    } else {
      PushClosure(g, p, encup, base, at, up);
    }
  }

  method DoGetUp(g: GlobalState, i: nat, n: nat)
    requires Inv(g.Now())
    modifies g
    ensures Inv(g.Now()) && OnlyObjs(old(g.Now()), g.Now(), AfterGetUp(old(g.Now()), i, n))
  {
    var c := Operand(g, i);
    if c.Some? && n < |UpvalsOf(g.objs[c.value])| {
      UpvalueIsHeld(g, c.value, n);
      Push(g, g.running, UpValue(Heap(g.objs, g.ups), UpvalsOf(g.objs[c.value])[n]));
    }
  }

  method DoSetUp(g: GlobalState, i: nat, n: nat, j: nat)
    requires Inv(g.Now())
    modifies g
    ensures Inv(g.Now()) && UpSet(old(g.Now()), g.Now(), i, n, j)
  {
    var c := Operand(g, i);
    var v := Operand(g, j);
    if c.Some? && n < |UpvalsOf(g.objs[c.value])| {
      UpvalueIsHeld(g, c.value, n);
      SetUpvalue(g, UpvalsOf(g.objs[c.value])[n], v);
    }
  }

  method DoGetCUp(g: GlobalState, i: nat, n: nat)
    requires Inv(g.Now())
    modifies g
    ensures Inv(g.Now()) && OnlyObjs(old(g.Now()), g.Now(), AfterGetCUp(old(g.Now()), i, n))
  {
    var c := Operand(g, i);
    if c.Some? && g.objs[c.value].CClosure? && n < |g.objs[c.value].values| {
      PointerIsHeld(g, c.value, n);
      Push(g, g.running, g.objs[c.value].values[n]);
    }
  }

  method DoSetCUp(g: GlobalState, i: nat, n: nat, j: nat)
    requires Inv(g.Now())
    modifies g
    ensures Inv(g.Now()) && OnlyObjs(old(g.Now()), g.Now(), AfterSetCUp(old(g.Now()), i, n, j))
  {
    var c := Operand(g, i);
    var v := Operand(g, j);
    if c.Some? && g.objs[c.value].CClosure? && n < |g.objs[c.value].values| {
      SetCUpvalue(g, c.value, n, v);
    }
  }

  /** A function that runs reads its prototype. */
  method DoGetProto(g: GlobalState, i: nat)
    requires Inv(g.Now())
    modifies g
    ensures Inv(g.Now()) && OnlyObjs(old(g.Now()), g.Now(), AfterGetProto(old(g.Now()), i))
  {
    var c := Operand(g, i);
    if c.Some? && g.objs[c.value].LClosure? {
      PointerIsHeld(g, c.value, 0);
      Push(g, g.running, g.objs[c.value].proto);
    }
  }

  /** OP_LOADK, OP_CLOSURE: a constant or a nested prototype of a prototype. */
  method DoGetPart(g: GlobalState, i: nat, k: nat)
    requires Inv(g.Now())
    modifies g
    ensures Inv(g.Now()) && OnlyObjs(old(g.Now()), g.Now(), AfterGetPart(old(g.Now()), i, k))
  {
    var p := Operand(g, i);
    if p.Some? && g.objs[p.value].Proto? && k < |g.objs[p.value].parts| {
      PointerIsHeld(g, p.value, k);
      Push(g, g.running, g.objs[p.value].parts[k]);
    }
  }

  /** The metatable of a basic type (luaT_gettmbyobj, lua_getmetatable). */
  method DoGetTypeMeta(g: GlobalState, t: nat)
    requires Inv(g.Now())
    modifies g
    ensures Inv(g.Now()) && OnlyObjs(old(g.Now()), g.Now(), AfterGetTypeMeta(old(g.Now()), t))
  {
    RootsAreLive(g.Now());
    if t < |g.mt| {
      Push(g, g.running, g.mt[t]);
    }
  }

  method DoResume(g: GlobalState, i: nat)
    requires Inv(g.Now())
    modifies g
    ensures Inv(g.Now()) && Resumed(old(g.Now()), g.Now(), i)
  {
    var th := Operand(g, i);
    if th.Some? && g.objs[th.value].Thread? {
      SwitchTo(g, th.value);
    }
  }

  method DoSetTypeMeta(g: GlobalState, t: nat, i: nat)
    requires Inv(g.Now())
    modifies g
    ensures Inv(g.Now()) && SameHeap(old(g.Now()), g.Now())
    ensures RootsAre(g.Now(), old(g.running), old(g.registry),
                     if t < |old(g.mt)| then old(g.mt)[t := Slot(old(g.Now()), i)] else old(g.mt), old(g.fixedgc))
  {
    var v := Operand(g, i);
    if t < |g.mt| {
      SetTypeMetatable(g, t, v);
    }
  }

  method DoFix(g: GlobalState)
    requires Inv(g.Now())
    modifies g
    ensures Inv(g.Now()) && Fixed(old(g.Now()), g.Now())
  {
    if g.gcstate.Pause? && g.allgc != [] && g.allgc[0] in g.objs && g.objs[g.allgc[0]].Str? {
      g.Fix(g.allgc[0]);
    }
  }

  // ---- What has been stored is read back ----

  /** The value of a slot of the running thread is stored somewhere. */
  predicate IsStore(s: Snap, a: Action) {
    match a
    case SetField(i, k, j) => Target(s, i).Table?
    case SetMeta(i, j) => Target(s, i).Table? || Target(s, i).Udata?
    case SetUser(i, j) => Target(s, i).Udata?
    case SetCUp(i, n, j) => Target(s, i).CClosure? && n < |Target(s, i).values|
    case AddConstant(i, j) => Target(s, i).Proto?
    case SetGlobals(j) => true
    case SetTypeMeta(t, j) => t < |s.mt|
    case _ => false
  }

  function Source(a: Action): nat {
    match a
    case SetField(_, _, j) => j
    case SetMeta(_, j) => j
    case SetUser(_, j) => j
    case SetCUp(_, _, j) => j
    case AddConstant(_, j) => j
    case SetGlobals(j) => j
    case SetTypeMeta(_, j) => j
    case _ => 0
  }

  /** The action that reads from the same place. */
  function ReadAfter(s: Snap, a: Action): Action
    requires IsStore(s, a)
  {
    match a
    case SetField(i, k, _) => GetField(i, if k < |Target(s, i).slots| then k else |Target(s, i).slots|)
    case SetMeta(i, _) => GetMeta(i)
    case SetUser(i, _) => GetUser(i)
    case SetCUp(i, n, _) => GetCUp(i, n)
    case AddConstant(i, _) => GetPart(i, |Target(s, i).parts|)
    case SetTypeMeta(t, _) => GetTypeMeta(t)
    case _ => GetGlobals
  }

  /** No store of these kinds touches a stack. */
  lemma StackIsKept(s: Snap, a: Action, s1: Snap)
    requires Inv(s) && IsStore(s, a) && Did(s, a, s1)
    ensures IsThread(HeapOf(s), s.running) && IsThread(HeapOf(s1), s.running) && s1.running == s.running
    ensures s1.objs[s.running].stack == s.objs[s.running].stack
  {
    RootsAreLive(s);
  }

  lemma FieldIsRead(s: Snap, a: Action, s1: Snap, s2: Snap)
    requires Inv(s) && IsStore(s, a) && Did(s, a, s1) && Did(s1, ReadAfter(s, a), s2)
    requires a.SetField? || a.SetMeta? || a.SetUser?
    ensures s2.objs == Pushed(s1.objs, s.running, Slot(s, Source(a)))
  {
    StackIsKept(s, a, s1);
  }

  lemma PlaceIsRead(s: Snap, a: Action, s1: Snap, s2: Snap)
    requires Inv(s) && IsStore(s, a) && Did(s, a, s1) && Did(s1, ReadAfter(s, a), s2)
    requires !a.SetField? && !a.SetMeta? && !a.SetUser?
    ensures s2.objs == Pushed(s1.objs, s.running, Slot(s, Source(a)))
  {
    StackIsKept(s, a, s1);
  }

  /** A read behind a store pushes the value that has been stored. */
  lemma StoredIsRead(s: Snap, a: Action, s1: Snap, s2: Snap)
    requires Inv(s) && IsStore(s, a) && Did(s, a, s1) && Did(s1, ReadAfter(s, a), s2)
    ensures s.running in s.objs && s.objs[s.running].Thread? && s.running in s2.objs && s2.objs[s.running].Thread?
    ensures var stack := s.objs[s.running].stack;
            s2.objs[s.running].stack == stack + [if Source(a) < |stack| then stack[Source(a)] else None]
  {
    StackIsKept(s, a, s1);
    if a.SetField? || a.SetMeta? || a.SetUser? {
      FieldIsRead(s, a, s1, s2);
    } else {
      PlaceIsRead(s, a, s1, s2);
    }
  }

  /** The same for an upvalue, unless the store has replaced the closure itself. */
  lemma UpvalueIsRead(s: Snap, i: nat, n: nat, j: nat, s1: Snap, s2: Snap)
    requires Inv(s) && Target(s, i).LClosure? && n < |Target(s, i).upvals| && Target(s, i).upvals[n] in s.ups
    requires Did(s, SetUp(i, n, j), s1) && Slot(s1, i) == Slot(s, i) && Did(s1, GetUp(i, n), s2)
    ensures s.running in s2.objs && s2.objs[s.running].Thread? && s2.objs[s.running].stack != []
    ensures var stack := s2.objs[s.running].stack; stack[|stack| - 1] == Slot(s, j)
  {
    RootsAreLive(s);
    var u := Target(s, i).upvals[n];
    assert UpvalueSet(s, s1, u, Slot(s, j));
    assert Target(s1, i) == Target(s, i);
  }

  /** OP_CLOSURE leaves a closure of the prototype on the stack whose upvalues are those
      open in the named registers and those of the enclosing closure. */
  lemma ClosureOnStack(s: Snap, i: nat, encl: nat, base: nat, at: Ref, up: Up, s': Snap) returns (c: Ref)
    requires Inv(s) && Target(s, i).Proto? && at !in s.objs && forall u :: u in s.ups ==> u < up
    requires var ds, th := Target(s, i).upvalues, s.running;
             forall k :: 0 <= k < |ds| ==>
               if ds[k].instack then base + ds[k].idx < |StackOf(s.objs, th)|
               else Target(s, encl).LClosure? && ds[k].idx < |Target(s, encl).upvals|
    requires Did(s, MakeClosure(i, encl, base, at, up), s')
    ensures StackOf(s'.objs, s.running) == StackOf(s.objs, s.running) + [Some(c)]
    ensures c in s'.objs && s'.objs[c].LClosure? && s'.objs[c].proto == Slot(s, i)
    ensures var ds, us := Target(s, i).upvalues, s'.objs[c].upvals;
            |us| == |ds| && forall k :: 0 <= k < |ds| ==>
              if ds[k].instack
              then us[k] in s'.ups && s'.ups[us[k]].Open? && s'.ups[us[k]].thread == s.running &&
                   s'.ups[us[k]].slot == base + ds[k].idx
              else us[k] == Target(s, encl).upvals[ds[k].idx]
  {
    RootsAreLive(s);
    var p, encup := Slot(s, i).value, EnclosingUps(s, encl);
    if Slot(s, encl).Some? && Slot(s, encl).value in s.objs {
      assert ClosureOk(HeapOf(s), s.objs[Slot(s, encl).value]);
    }
    assert CanClose(s, i, encl, base, at, up);
    if CacheServes(s, p, encup, base) {
      c := s.objs[p].cache.value;
      assert forall k :: 0 <= k < |s.objs[p].upvalues| ==>
          Installs(HeapOf(s), s.running, base, encup, s.objs[p].upvalues[k], s.objs[c].upvals[k]);
    } else {
      assert NewClosure(s, s', p, encup, base, at);
      var us :| NewClosureWith(s, s', p, encup, base, at, us);
      c := at;
      assert forall k :: 0 <= k < |s.objs[p].upvalues| ==>
          Installs(HeapOf(s'), s.running, base, encup, s.objs[p].upvalues[k], us[k]);
    }
  }

  // ---- Runs ----

  /** Nothing that the program can get at has been freed: it can use every root, and
      every field of whatever it can reach. */
  ghost predicate NoDangling(s: Snap) {
    && Usable(s, Some(s.mainthread)) && Usable(s, Some(s.running)) && Usable(s, s.registry) && AllUsable(s, s.mt)
    && forall x :: Accessible(s, x) ==> x in s.objs && Usable(s, Some(x)) && FieldsUsable(s, x)
  }

  /** The states that `n` actions have gone through. */
  ghost predicate History(states: seq<Snap>, script: seq<Action>, n: nat) {
    && |states| == n + 1 && n <= |script|
    && (forall k {:trigger Sound(states, k)} :: 0 <= k <= n ==> Sound(states, k))
    && forall k {:trigger DidAt(states, script, k)} :: 0 <= k < n ==> DidAt(states, script, k)
  }

  ghost predicate Sound(states: seq<Snap>, k: nat) {
    k < |states| && Inv(states[k]) && NoDangling(states[k])
  }

  ghost predicate DidAt(states: seq<Snap>, script: seq<Action>, k: nat) {
    k + 1 < |states| && k < |script| && Did(states[k], script[k], states[k + 1])
  }

  lemma Begun(s: Snap, script: seq<Action>)
    requires Inv(s)
    ensures History([s], script, 0)
  {
    NothingDangles(s);
  }

  lemma Continued(states: seq<Snap>, script: seq<Action>, n: nat, s: Snap)
    requires History(states, script, n) && n < |script| && Inv(s) && DidAt(states + [s], script, n)
    ensures History(states + [s], script, n + 1)
  {
    forall k | 0 <= k <= n + 1 ensures Sound(states + [s], k) {
      if k <= n { assert Sound(states, k); } else { LastSound(states + [s]); }
    }
    forall k | 0 <= k < n + 1 ensures DidAt(states + [s], script, k) {
      assert k < n ==> DidAt(states, script, k);
    }
  }

  lemma LastDid(states: seq<Snap>, script: seq<Action>, n: nat, s: Snap)
    requires |states| == n + 1 && n < |script| && Did(states[n], script[n], s)
    ensures DidAt(states + [s], script, n)
  {
    assert (states + [s])[n] == states[n] && (states + [s])[n + 1] == s;
  }

  lemma LastSound(states: seq<Snap>)
    requires states != [] && Inv(states[|states| - 1])
    ensures Sound(states, |states| - 1)
  {
    NothingDangles(states[|states| - 1]);
  }

  /** Every run of every program, with the collector stepping in wherever it likes, and
      the states that it goes through. */
  method Run(main: Ref, script: seq<Action>) returns (g: GlobalState, ghost states: seq<Snap>)
    ensures History(states, script, |script|) && states[|script|] == g.Now()
    ensures states[0].objs == map[main := Thread([], [])] && states[0].running == main
  {
    g := new GlobalState(main, 9);
    states := [g.Now()];
    Begun(g.Now(), script);
    ghost var start := g.Now();
    for i := 0 to |script|
      invariant History(states, script, i) && states[i] == g.Now() && Inv(g.Now()) && fresh(g) && states[0] == start
    {
      Do(g, script[i]);
      LastDid(states, script, i, g.Now());
      Continued(states, script, i, g.Now());
      states := states + [g.Now()];
    }
  }

  lemma NothingDangles(s: Snap)
    requires Inv(s)
    ensures NoDangling(s)
  {
    RootsUsable(s);
    forall x | Accessible(s, x) ensures x in s.objs && Usable(s, Some(x)) && FieldsUsable(s, x) {
      AccessibleFields(s, x);
    }
  }
}
