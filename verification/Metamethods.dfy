/** Metamethods: events have two names, and tables remember which events they do
    not handle (src/ltm.c, src/ltm.h, src/lvm.c, src/lvm.h, src/lapi.c). */
module Metamethods {
  import opened LuaValues

  type Ref = nat
  type Event = nat

  const TM_INDEX: Event := 0
  const TM_NEWINDEX: Event := 1
  const TM_EQ: Event := 5  // the last event with fast access: `flags` has a bit for it

  /** All bits of `flags`, which is a byte. */
  const ALL_BITS: set<Event> := {0, 1, 2, 3, 4, 5, 6, 7}

  /** A table as a map (absent keys have nil values), with its metatable and the set
      bits of `flags`. */
  datatype Table = Table(entries: map<Value, Value>, metatable: Option<Ref>, flags: set<Event>)

  datatype Names = Names(cyr: Event -> Value, eng: Event -> Value)

  /** What a program sees: `tables` without the flags. */
  datatype World = World(
    tables: map<Ref, Table>,
    udata: map<Ref, Option<Ref>>,
    functions: set<Ref>,
    mt: map<nat, Ref>,
    names: Names)

  predicate WorldOk(w: World) {
    && (forall r {:trigger w.tables[r].metatable} :: r in w.tables && w.tables[r].metatable.Some? ==>
        w.tables[r].metatable.value in w.tables)
    && (forall u {:trigger w.udata[u]} :: u in w.udata && w.udata[u].Some? ==> w.udata[u].value in w.tables)
    && (forall t {:trigger w.mt[t]} :: t in w.mt ==> w.mt[t] in w.tables)
    && (forall r {:trigger EntriesOk(w.tables[r])} :: r in w.tables ==> EntriesOk(w.tables[r]))
  }

  /** What is there has a key in its stored form and a value that is not nil. */
  predicate EntriesOk(t: Table) {
    forall k {:trigger t.entries[k]} :: k in t.entries ==> IsKey(k) && t.entries[k] != Nil
  }

  function Raw(t: Table, key: Value): Value {
    if Normal(key) in t.entries then t.entries[Normal(key)] else Nil
  }

  /** `t1` has the value `v` under the key, and no entry there if `v` is nil; every
      other entry is as in `t`. */
  ghost predicate Wrote(t: Table, t1: Table, key: Value, v: Value) {
    && t1.metatable == t.metatable
    && (if v == Nil then Normal(key) !in t1.entries else Normal(key) in t1.entries && t1.entries[Normal(key)] == v)
    && (forall k :: k in t.entries && k != Normal(key) ==> k in t1.entries && t1.entries[k] == t.entries[k])
    && (forall k :: k in t1.entries && k != Normal(key) ==> k in t.entries)
  }

  function Put(t: Table, key: Value, v: Value): (t1: Table)
    ensures Wrote(t, t1, key, v) && t1.flags == t.flags
  {
    t.(entries := if v == Nil then t.entries - {Normal(key)} else t.entries[Normal(key) := v])
  }

  predicate IsTable(w: World, o: Value) {
    o.Object? && o.p in w.tables
  }

  predicate IsFunction(w: World, o: Value) {
    o.CFunction? || (o.Object? && o.p !in w.tables && o.p in w.functions)
  }

  function TypeOf(w: World, o: Value): nat {
    match o
    case Nil => 0
    case Bool(_) => 1
    case LightPointer(_) => 2
    case Int(_) => 3
    case Flt(_) => 3
    case ShortStr(_) => 4
    case LongStr(_) => 4
    case CFunction(_) => 6
    case Object(p) => if p in w.tables then 5 else if p in w.functions then 6 else if p in w.udata then 7 else 8
  }

  function MetatableOf(w: World, o: Value): Option<Ref> {
    var t := TypeOf(w, o);
    if t == 5 then w.tables[o.p].metatable
    else if t == 7 then w.udata[o.p]
    else if t in w.mt then Some(w.mt[t])
    else None
  }

  /** The handler of an event, under the Cyrillic name or else the English one. */
  function Handler(w: World, mt: Option<Ref>, e: Event): Value {
    if mt.None? || mt.value !in w.tables then Nil
    else
      var c := Raw(w.tables[mt.value], w.names.cyr(e));
      if c != Nil then c else Raw(w.tables[mt.value], w.names.eng(e))
  }

  datatype Outcome = Found(v: Value) | Stored | Call(f: Value, o: Value) | TypeError | TooLong | BadKey

  /** o[key] is there. */
  predicate Hit(w: World, o: Value, key: Value) {
    IsTable(w, o) && Raw(w.tables[o.p], key) != Nil
  }

  /** What o[key] means, without any cache; `n` handlers may be followed. */
  function Index(w: World, o: Value, key: Value, n: nat): Outcome
    decreases n
  {
    if Hit(w, o, key) then Found(Raw(w.tables[o.p], key))
    else if n == 0 then TooLong
    else
      var tm := Handler(w, MetatableOf(w, o), TM_INDEX);
      if tm == Nil then (if IsTable(w, o) then Found(Nil) else TypeError)
      else if IsFunction(w, tm) then Call(tm, o)
      else Index(w, tm, key, n - 1)
  }

  predicate CanBeKey(key: Value) {
    key != Nil && key != Flt(NaN)
  }

  /** What o[key] = v does, and the table that it changes. */
  function NewIndex(w: World, o: Value, key: Value, n: nat): (Outcome, Option<Ref>)
    decreases n
  {
    if Hit(w, o, key) then (Stored, Some(o.p))
    else if n == 0 then (TooLong, None)
    else
      var tm := Handler(w, MetatableOf(w, o), TM_NEWINDEX);
      if tm == Nil then
        if !IsTable(w, o) then (TypeError, None)
        else if CanBeKey(key) then (Stored, Some(o.p))
        else (BadKey, None)
      else if IsFunction(w, tm) then (Call(tm, o), None)
      else NewIndex(w, tm, key, n - 1)
  }

  lemma {:induction false} NewIndexTarget(w: World, o: Value, key: Value, n: nat)
    requires WorldOk(w)
    ensures var r := NewIndex(w, o, key, n);
            && (r.1.Some? <==> r.0 == Stored)
            && (r.1.Some? ==> r.1.value in w.tables && key != Nil && key != Flt(NaN))
            && (r.0 == BadKey ==> key == Nil || key == Flt(NaN))
    decreases n
  {
    if Hit(w, o, key) {
      HitIsKey(w, o, key);
    } else if n > 0 {
      var tm := Handler(w, MetatableOf(w, o), TM_NEWINDEX);
      if tm != Nil && !IsFunction(w, tm) { NewIndexTarget(w, tm, key, n - 1); }
    }
  }

  lemma HitIsKey(w: World, o: Value, key: Value)
    requires WorldOk(w) && Hit(w, o, key)
    ensures key != Nil && key != Flt(NaN)
  {
    assert EntriesOk(w.tables[o.p]);
  }

  /** `w1` is the world after storing into `target`. */
  ghost predicate Effect(w: World, target: Option<Ref>, key: Value, v: Value, w1: World) {
    || (target.None? && w1 == w)
    || (target.Some? && target.value in w.tables
        && target.value in w1.tables && w1 == w.(tables := w.tables[target.value := w1.tables[target.value]])
        && Wrote(w.tables[target.value], w1.tables[target.value], key, v)
        && w1.tables[target.value].flags == w.tables[target.value].flags)
  }

  lemma StoredWorld(w: World, r: Ref, t: Table, key: Value, v: Value)
    requires WorldOk(w) && r in w.tables && CanBeKey(key) && Wrote(w.tables[r], t, key, v)
    requires t.flags == w.tables[r].flags
    ensures WorldOk(w.(tables := w.tables[r := t])) && Effect(w, Some(r), key, v, w.(tables := w.tables[r := t]))
  {
    assert EntriesOk(w.tables[r]);
    forall x | x in w.tables ensures EntriesOk(w.tables[r := t][x]) {
      assert EntriesOk(w.tables[x]);
    }
  }

  /** After a store into `r` every key that is the same reads the value, whether raw or
      by the rules for o[key]; all other keys and all other tables read as before. */
  lemma ReadsBack(w: World, r: Ref, key: Value, v: Value, w1: World)
    requires Effect(w, Some(r), key, v, w1)
    ensures r in w.tables && r in w1.tables && w1.tables.Keys == w.tables.Keys
    ensures forall k :: Normal(k) == Normal(key) ==> Raw(w1.tables[r], k) == v
    ensures forall k, n: nat :: Normal(k) == Normal(key) && v != Nil ==> Index(w1, Object(r), k, n) == Found(v)
    ensures forall k :: Normal(k) != Normal(key) ==> Raw(w1.tables[r], k) == Raw(w.tables[r], k)
    ensures forall x :: x in w.tables && x != r ==> w1.tables[x] == w.tables[x]
  {
    forall k, n: nat | Normal(k) == Normal(key) && v != Nil ensures Index(w1, Object(r), k, n) == Found(v) {
      assert Hit(w1, Object(r), k);
    }
  }

  /** A set bit: neither name has a value in the table. */
  predicate CacheOk(t: Table, names: Names) {
    forall e :: e in t.flags ==> Raw(t, names.cyr(e)) == Nil && Raw(t, names.eng(e)) == Nil
  }

  function Plain(tables: map<Ref, Table>): map<Ref, Table> {
    map r | r in tables :: tables[r].(flags := {})
  }

  /** Overwriting a value does not make an absent event present. */
  lemma OverwriteKeepsCache(t: Table, names: Names, key: Value, v: Value)
    requires CacheOk(t, names) && Raw(t, key) != Nil
    ensures CacheOk(Put(t, key, v), names)
  {
  }

  /** No flag is wrong. */
  ghost predicate FlagsOk(tables: map<Ref, Table>, names: Names) {
    forall r {:trigger CacheOk(tables[r], names)} :: r in tables ==> CacheOk(tables[r], names)
  }

  /** The names of the events are short strings. */
  ghost predicate NamesOk(names: Names) {
    && (forall e {:trigger names.cyr(e)} :: names.cyr(e).ShortStr?)
    && forall e {:trigger names.eng(e)} :: names.eng(e).ShortStr?
  }

  /** Storing under a key that is no string cannot make an event present. */
  lemma OtherKeysKeepCache(t: Table, names: Names, key: Value, v: Value)
    requires CacheOk(t, names) && NamesOk(names) && !Normal(key).ShortStr?
    ensures CacheOk(Put(t, key, v), names)
  {
    var t' := Put(t, key, v);
    forall e | e in t.flags ensures Raw(t', names.cyr(e)) == Nil && Raw(t', names.eng(e)) == Nil {
      assert Raw(t, names.cyr(e)) == Nil && Raw(t, names.eng(e)) == Nil;
    }
  }

  ghost predicate Indexes(w: World, t: Value, key: Value, n: int, r: Outcome) {
    n < 0 || Index(w, t, key, n) == r
  }

  /** One round of luaV_finishget. */
  lemma IndexStep(w: World, t: Value, key: Value, n: int, r: Outcome)
    requires n > 0 && Indexes(w, t, key, n, r) && !Hit(w, t, key)
    ensures
      var tm := Handler(w, MetatableOf(w, t), TM_INDEX);
      if tm == Nil then r == (if IsTable(w, t) then Found(Nil) else TypeError)
      else if IsFunction(w, tm) then r == Call(tm, t)
      else Indexes(w, tm, key, n - 1, r) && (Hit(w, tm, key) ==> r == Found(Raw(w.tables[tm.p], key)))
  {
  }

  lemma IndexEnd(w: World, t: Value, key: Value, n: int, r: Outcome)
    requires n == 0 && Indexes(w, t, key, n, r) && !Hit(w, t, key)
    ensures r == TooLong
  {
  }

  ghost predicate Assigns(w: World, t: Value, key: Value, n: int, r: Outcome, target: Option<Ref>) {
    n < 0 || NewIndex(w, t, key, n) == (r, target)
  }

  /** One round of luaV_finishset. */
  lemma AssignStep(w: World, t: Value, key: Value, n: int, r: Outcome, target: Option<Ref>)
    requires n > 0 && Assigns(w, t, key, n, r, target) && !Hit(w, t, key)
    ensures
      var tm := Handler(w, MetatableOf(w, t), TM_NEWINDEX);
      if tm == Nil then
        if !IsTable(w, t) then r == TypeError && target == None
        else if CanBeKey(key) then r == Stored && target == Some(t.p)
        else r == BadKey && target == None
      else if IsFunction(w, tm) then r == Call(tm, t) && target == None
      else Assigns(w, tm, key, n - 1, r, target) && (Hit(w, tm, key) ==> r == Stored && target == Some(tm.p))
  {
  }

  lemma AssignEnd(w: World, t: Value, key: Value, n: int, r: Outcome, target: Option<Ref>)
    requires n == 0 && Assigns(w, t, key, n, r, target) && !Hit(w, t, key)
    ensures r == TooLong && target == None
  {
  }

  lemma NewTableOk(w: World, r: Ref)
    requires WorldOk(w) && r !in w.tables
    ensures WorldOk(w.(tables := w.tables[r := Table(map[], None, {})]))
  {
    forall x | x in w.tables ensures EntriesOk(w.tables[r := Table(map[], None, {})][x]) {
      assert EntriesOk(w.tables[x]);
    }
  }

  class State {
    const names: Names
    const maxloop: nat  // MAXTAGLOOP
    var tables: map<Ref, Table>
    var udata: map<Ref, Option<Ref>>
    var functions: set<Ref>
    var mt: map<nat, Ref>

    constructor (names: Names, maxloop: nat)
      requires NamesOk(names)
      ensures Valid() && Seen() == World(map[], map[], {}, map[], names)
    {
      this.names, this.maxloop := names, maxloop;
      tables, udata, functions, mt := map[], map[], {}, map[];
    }

    ghost function Seen(): World
      reads this
    {
      World(Plain(tables), udata, functions, mt, names)
    }

    ghost predicate Valid()
      reads this
    {
      WorldOk(Seen()) && FlagsOk(tables, names) && NamesOk(names)
    }

    /** ttistable */
    function TtIsTable(o: Value): (b: bool)
      reads this
      ensures b == IsTable(Seen(), o)
    {
      o.Object? && o.p in tables
    }

    /** ttisfunction */
    function TtIsFunction(o: Value): (b: bool)
      reads this
      ensures b == IsFunction(Seen(), o)
    {
      o.CFunction? || (o.Object? && o.p !in tables && o.p in functions)
    }

    /** luaH_getshortstr and luaH_get */
    method RawGet(r: Ref, key: Value) returns (v: Value)
      requires r in tables
      ensures v == Raw(Seen().tables[r], key)
    {
      v := if Normal(key) in tables[r].entries then tables[r].entries[Normal(key)] else Nil;
    }

    /** luaT_gettm2: the absence of both names is remembered. */
    method GetTm2(events: Ref, e: Event) returns (tm: Value)
      requires Valid() && events in tables && e <= TM_EQ
      modifies this`tables
      ensures Valid() && Seen() == old(Seen())
      ensures tm == Handler(Seen(), Some(events), e)
      ensures tm == Nil ==> e in tables[events].flags
    {
      tm := RawGet(events, names.cyr(e));
      if tm == Nil {
        tm := RawGet(events, names.eng(e));
        if tm != Nil {
          return;
        }
        assert CacheOk(tables[events], names);
        SetFlags(events, tables[events].flags + {e});
      }
    }

    method SetFlags(r: Ref, flags: set<Event>)
      requires Valid() && r in tables && CacheOk(tables[r].(flags := flags), names)
      modifies this`tables
      ensures Valid() && Seen() == old(Seen())
      ensures tables == old(tables)[r := old(tables)[r].(flags := flags)]
    {
      tables := tables[r := tables[r].(flags := flags)];
      assert Plain(tables) == old(Plain(tables));
    }

    /** fasttm */
    method FastTm(mt: Option<Ref>, e: Event) returns (tm: Value)
      requires Valid() && (mt.Some? ==> mt.value in tables) && e <= TM_EQ
      modifies this`tables
      ensures Valid() && Seen() == old(Seen())
      ensures tm == Handler(Seen(), mt, e)
    {
      if mt.None? {
        return Nil;
      }
      if e in tables[mt.value].flags {
        assert CacheOk(tables[mt.value], names);
        return Nil;
      }
      tm := GetTm2(mt.value, e);
    }

    /** luaT_gettmbyobj */
    method GetTmByObj(o: Value, e: Event) returns (tm: Value)
      requires Valid()
      ensures tm == Handler(Seen(), MetatableOf(Seen(), o), e)
    {
      var mt := GetMetatable(o);
      if mt.None? {
        return Nil;
      }
      tm := RawGet(mt.value, names.cyr(e));
      if tm == Nil {
        tm := RawGet(mt.value, names.eng(e));
      }
    }

    method GetMetatable(o: Value) returns (m: Option<Ref>)
      requires Valid()
      ensures m == MetatableOf(Seen(), o)
      ensures m.Some? ==> m.value in tables
    {
      if TtIsTable(o) {
        m := tables[o.p].metatable;
      } else if o.Object? && o.p in udata && o.p !in functions {
        m := udata[o.p];
      } else {
        var t := TypeTag(o);
        m := if t in mt then Some(mt[t]) else None;
      }
    }

    method TypeTag(o: Value) returns (t: nat)
      ensures t == TypeOf(Seen(), o)
    {
      t := if o.Nil? then 0 else if o.Bool? then 1 else if o.LightPointer? then 2 else if o.Int? || o.Flt? then 3
        else if o.ShortStr? || o.LongStr? then 4 else if o.CFunction? then 6
        else if o.p in tables then 5 else if o.p in functions then 6 else if o.p in udata then 7 else 8;
    }

    /** luaV_fastget */
    method FastGet(o: Value, key: Value) returns (v: Value)
      requires Valid()
      ensures v == if Hit(Seen(), o, key) then Raw(Seen().tables[o.p], key) else Nil
    {
      if TtIsTable(o) {
        v := RawGet(o.p, key);
      } else {
        v := Nil;
      }
    }

    /** The handler that luaV_finishget and luaV_finishset look for. */
    method FindTm(t: Value, e: Event) returns (tm: Value)
      requires Valid() && e <= TM_EQ
      modifies this`tables
      ensures Valid() && Seen() == old(Seen())
      ensures tm == Handler(Seen(), MetatableOf(Seen(), t), e)
    {
      if TtIsTable(t) {
        assert MetatableOf(Seen(), t) == tables[t.p].metatable;
        tm := FastTm(tables[t.p].metatable, e);
      } else {
        tm := GetTmByObj(t, e);
      }
    }

    /** luaV_gettable with luaV_finishget */
    method GetTable(o: Value, key: Value) returns (r: Outcome)
      requires Valid()
      modifies this`tables
      ensures Valid() && Seen() == old(Seen())
      ensures r == Index(Seen(), o, key, maxloop)
    {
      var v := FastGet(o, key);
      if v != Nil {
        return Found(v);
      }
      ghost var ans := Index(Seen(), o, key, maxloop);
      r := FinishGet(o, key, ans);
    }

    method FinishGet(o: Value, key: Value, ghost ans: Outcome) returns (r: Outcome)
      requires Valid() && !Hit(Seen(), o, key) && Indexes(Seen(), o, key, maxloop, ans)
      modifies this`tables
      ensures Valid() && Seen() == old(Seen()) && r == ans
    {
      ghost var w, n: int := Seen(), maxloop;
      var t := o;
      for loop := 0 to maxloop
        invariant Valid() && Seen() == w && !Hit(w, t, key)
        invariant n == maxloop - loop && Indexes(w, t, key, n, ans)
      {
        var d;
        d, t := TryIndex(t, key, n, ans);
        if d.Some? {
          return d.value;
        }
        n := n - 1;
      }
      IndexEnd(w, t, key, n, ans);
      r := TooLong;
    }

    /** One round over the chain: the end, or the next object to try. */
    method TryIndex(t: Value, key: Value, ghost n: int, ghost ans: Outcome) returns (d: Option<Outcome>, next: Value)
      requires Valid() && !Hit(Seen(), t, key) && n > 0 && Indexes(Seen(), t, key, n, ans)
      modifies this`tables
      ensures Valid() && Seen() == old(Seen())
      ensures if d.Some? then d.value == ans else !Hit(Seen(), next, key) && Indexes(Seen(), next, key, n - 1, ans)
    {
      IndexStep(Seen(), t, key, n, ans);
      var tm := FindTm(t, TM_INDEX);
      next := tm;
      if tm == Nil {
        d := Some(if TtIsTable(t) then Found(Nil) else TypeError);
      } else if TtIsFunction(tm) {
        d := Some(Call(tm, t));
      } else {
        var v := FastGet(tm, key);
        d := if v != Nil then Some(Found(v)) else None;
      }
    }

    /** luaV_settable with luaV_finishset: a store over a value that is not nil
        leaves the flags alone, any other clears them. */
    method SetTable(o: Value, key: Value, v: Value) returns (r: Outcome)
      requires Valid()
      modifies this`tables
      ensures Valid()
      ensures var (outcome, target) := NewIndex(old(Seen()), o, key, maxloop);
              r == outcome && Effect(old(Seen()), target, key, v, Seen())
    {
      ghost var (outcome, target) := NewIndex(Seen(), o, key, maxloop);
      NewIndexTarget(Seen(), o, key, maxloop);
      var stored := FastSet(o, key, v);
      if stored {
        return Stored;
      }
      r := FinishSet(o, key, v, outcome, target);
    }

    method FinishSet(o: Value, key: Value, v: Value, ghost outcome: Outcome, ghost target: Option<Ref>)
      returns (r: Outcome)
      requires Valid() && !Hit(Seen(), o, key) && Assigns(Seen(), o, key, maxloop, outcome, target)
      modifies this`tables
      ensures Valid() && r == outcome && Effect(old(Seen()), target, key, v, Seen())
    {
      ghost var w, n: int := Seen(), maxloop;
      var t := o;
      for loop := 0 to maxloop
        invariant Valid() && Seen() == w && !Hit(w, t, key)
        invariant n == maxloop - loop && Assigns(w, t, key, n, outcome, target)
      {
        var d;
        d, t := TryAssign(t, key, v, n, outcome, target);
        if d.Some? {
          return d.value;
        }
        n := n - 1;
      }
      AssignEnd(w, t, key, n, outcome, target);
      r := TooLong;
    }

    /** One round over the chain: the end, or the next object to try. */
    method TryAssign(t: Value, key: Value, v: Value, ghost n: int, ghost outcome: Outcome, ghost target: Option<Ref>)
      returns (d: Option<Outcome>, next: Value)
      requires Valid() && !Hit(Seen(), t, key) && n > 0 && Assigns(Seen(), t, key, n, outcome, target)
      modifies this`tables
      ensures Valid()
      ensures d.Some? ==> d.value == outcome && Effect(old(Seen()), target, key, v, Seen())
      ensures d.None? ==>
                Seen() == old(Seen()) && !Hit(Seen(), next, key) && Assigns(Seen(), next, key, n - 1, outcome, target)
    {
      AssignStep(Seen(), t, key, n, outcome, target);
      var tm := FindTm(t, TM_NEWINDEX);
      next := tm;
      if tm == Nil || TtIsFunction(tm) {
        var r := LastSet(t, tm, key, v);
        d := Some(r);
      } else {
        var stored := FastSet(tm, key, v);
        d := if stored then Some(Stored) else None;
      }
    }

    /** The end of a chain of tables: no handler, or a function. */
    method LastSet(t: Value, tm: Value, key: Value, v: Value) returns (r: Outcome)
      requires Valid() && !Hit(Seen(), t, key) && (tm == Nil || IsFunction(Seen(), tm))
      modifies this`tables
      ensures Valid()
      ensures r == if tm != Nil then Call(tm, t) else if !IsTable(old(Seen()), t) then TypeError
                   else if CanBeKey(key) then Stored else BadKey
      ensures Effect(old(Seen()), if r == Stored then Some(t.p) else None, key, v, Seen())
    {
      if tm != Nil {
        return Call(tm, t);
      }
      if !TtIsTable(t) {
        return TypeError;
      }
      var ok := RawSet(t.p, key, v);
      r := if ok then Stored else BadKey;
    }

    /** luaV_fastset: only over a value that is not nil, and then the cache stays. */
    method FastSet(o: Value, key: Value, v: Value) returns (stored: bool)
      requires Valid()
      modifies this`tables
      ensures Valid()
      ensures stored == Hit(old(Seen()), o, key)
      ensures Effect(old(Seen()), if stored then Some(o.p) else None, key, v, Seen())
    {
      if !TtIsTable(o) {
        return false;
      }
      var slot := RawGet(o.p, key);
      if slot == Nil {
        return false;
      }
      OverwriteKeepsCache(tables[o.p], names, key, v);
      assert EntriesOk(Seen().tables[o.p]);
      Store(o.p, Put(tables[o.p], key, v), key, v);
      stored := true;
    }

    /** The stores of lua_rawset and luaV_finishset: a new entry clears the cache. */
    method RawSet(r: Ref, key: Value, v: Value) returns (ok: bool)
      requires Valid() && r in tables
      modifies this`tables
      ensures Valid()
      ensures ok <==> key != Nil && key != Flt(NaN)
      ensures Effect(old(Seen()), if ok then Some(r) else None, key, v, Seen())
    {
      ok := CanBeKey(key);
      if ok {
        Store(r, Put(tables[r], key, v).(flags := {}), key, v);
      }
    }

    /** lua_rawseti and OP_SETLIST: the cache stays, as no name is an integer. */
    method RawSetInt(r: Ref, n: int, v: Value)
      requires Valid() && r in tables
      modifies this`tables
      ensures Valid() && Effect(old(Seen()), Some(r), Int(n), v, Seen())
    {
      OtherKeysKeepCache(tables[r], names, Int(n), v);
      Store(r, Put(tables[r], Int(n), v), Int(n), v);
    }

    /** lua_rawsetp: no name is a light userdata either. */
    method RawSetP(r: Ref, p: nat, v: Value)
      requires Valid() && r in tables
      modifies this`tables
      ensures Valid() && Effect(old(Seen()), Some(r), LightPointer(p), v, Seen())
    {
      OtherKeysKeepCache(tables[r], names, LightPointer(p), v);
      Store(r, Put(tables[r], LightPointer(p), v), LightPointer(p), v);
    }

    method Store(r: Ref, t: Table, ghost key: Value, ghost v: Value)
      requires Valid() && r in tables && CacheOk(t, names) && CanBeKey(key) && Wrote(tables[r], t, key, v)
      modifies this`tables
      ensures Valid() && Effect(old(Seen()), Some(r), key, v, Seen())
    {
      ghost var w := Seen();
      StoredWorld(w, r, t.(flags := {}), key, v);
      tables := tables[r := t];
      assert Plain(tables) == w.tables[r := t.(flags := {})];
    }

    /** luaH_new: nothing is there yet, and every bit says so. */
    method NewTable(r: Ref)
      requires Valid() && r !in tables && r !in functions && r !in udata
      modifies this`tables
      ensures Valid() && Seen() == old(Seen()).(tables := old(Seen()).tables[r := Table(map[], None, {})])
      ensures r in tables && tables[r].flags == ALL_BITS
    {
      ghost var w := Seen();
      NewTableOk(w, r);
      tables := tables[r := Table(map[], None, ALL_BITS)];
      assert Plain(tables) == w.tables[r := Table(map[], None, {})];
    }

    /** lua_setmetatable, for a table */
    method SetMetatable(r: Ref, m: Option<Ref>)
      requires Valid() && r in tables && (m.Some? ==> m.value in tables)
      modifies this`tables
      ensures Valid()
      ensures Seen() == old(Seen()).(tables := old(Seen()).tables[r := old(Seen()).tables[r].(metatable := m)])
    {
      assert EntriesOk(Seen().tables[r]) && CacheOk(tables[r], names);
      tables := tables[r := tables[r].(metatable := m)];
      assert Plain(tables) == old(Plain(tables))[r := old(Plain(tables))[r].(metatable := m)];
    }

    /** lua_newuserdata */
    method NewUserdata(u: Ref)
      requires Valid() && u !in tables && u !in functions
      modifies this`udata
      ensures Valid() && Seen() == old(Seen()).(udata := old(udata)[u := None])
    {
      udata := udata[u := None];
    }

    /** A new closure. */
    method NewFunction(f: Ref)
      requires Valid() && f !in tables && f !in udata
      modifies this`functions
      ensures Valid() && Seen() == old(Seen()).(functions := old(functions) + {f})
    {
      functions := functions + {f};
    }

    /** lua_setmetatable, for a full userdata */
    method SetUserMetatable(u: Ref, m: Option<Ref>)
      requires Valid() && u in udata && (m.Some? ==> m.value in tables)
      modifies this`udata
      ensures Valid() && Seen() == old(Seen()).(udata := old(udata)[u := m])
    {
      udata := udata[u := m];
    }

    /** lua_setmetatable, for values of any other type */
    method SetTypeMetatable(t: nat, m: Option<Ref>)
      requires Valid() && (m.Some? ==> m.value in tables)
      modifies this`mt
      ensures Valid()
      ensures Seen() == old(Seen()).(mt := if m.Some? then old(mt)[t := m.value] else old(mt) - {t})
    {
      mt := if m.Some? then mt[t := m.value] else mt - {t};
    }

    /** The metamethod that luaV_equalobj takes for two tables or two full userdata. */
    method EqualTm(a: Value, b: Value) returns (tm: Value)
      requires Valid() && TypeOf(Seen(), a) == TypeOf(Seen(), b) && TypeOf(Seen(), a) in {5, 7}
      modifies this`tables
      ensures Valid() && Seen() == old(Seen())
      ensures tm == var x := Handler(Seen(), MetatableOf(Seen(), a), TM_EQ);
                    if x != Nil then x else Handler(Seen(), MetatableOf(Seen(), b), TM_EQ)
    {
      var ma := GetMetatable(a);
      tm := FastTm(ma, TM_EQ);
      if tm == Nil {
        var mb := GetMetatable(b);
        tm := FastTm(mb, TM_EQ);
      }
    }
  }
}
