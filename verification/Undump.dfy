/** Loading precompiled chunks (src/lundump.c). Ghost parameters say what was dumped:
    if the input is its dump, it is what comes back. */
module Undump {
  import opened LuaValues
  import opened Powers
  import opened DumpFormat
  import opened ByteStream
  import opened Dump

  datatype Result<+T> = Loaded(value: T) | Bad {
    predicate IsFailure() { Bad? }
    function PropagateFailure<U>(): Result<U> requires Bad? { Bad }
    function Extract(): T requires Loaded? { value }
  }

  class LoadState {
    const z: ZIO
    ghost const lost: Bytes  // what has been cut off behind the input

    constructor (z: ZIO, ghost lost: Bytes)
      ensures this.z == z && this.lost == lost
    {
      this.z, this.lost := z, lost;
    }

    /** The input as it was before it was cut off. */
    ghost function Virtual(): Bytes
      reads z
    {
      z.Contents() + lost
    }

    /** LoadBlock: `b` is what is expected, if `ok`. */
    method LoadBlock(n: nat, ghost ok: bool, ghost b: Bytes, ghost rest: Bytes) returns (r: Result<Bytes>)
      requires ok ==> |b| == n && Virtual() == b + rest
      modifies z
      ensures ok && lost == [] ==> r.Loaded?
      ensures ok && r.Loaded? ==> r == Loaded(b) && Virtual() == rest
      ensures r.Loaded? ==> |r.value| == n && |z.Contents()| == |old(z.Contents())| - n
      ensures if |old(z.Contents())| < n then r.Bad? else r.Loaded? && old(z.Contents()) == r.value + z.Contents()
    {
      ghost var all := z.Contents();
      var s, missing := z.Read(n);
      if ok {
        Front(b, rest, n);
        if missing == 0 { CutFront(all, lost, b, rest, n); }
      }
      r := if missing != 0 then Bad else Loaded(s);
    }

    method LoadByte(ghost ok: bool, ghost x: byte, ghost rest: Bytes) returns (r: Result<byte>)
      requires ok ==> Virtual() == [x] + rest
      modifies z
      ensures ok && lost == [] ==> r.Loaded?
      ensures ok && r.Loaded? ==> r == Loaded(x) && Virtual() == rest
      ensures r.Loaded? ==> |z.Contents()| == |old(z.Contents())| - 1
    {
      var b :- LoadBlock(1, ok, [x], rest);
      r := Loaded(b[0]);
    }

    method LoadInt(ghost ok: bool, ghost x: int32, ghost rest: Bytes) returns (r: Result<int32>)
      requires ok ==> Virtual() == EncInt(x) + rest
      modifies z
      ensures ok && lost == [] ==> r.Loaded?
      ensures ok && r.Loaded? ==> r == Loaded(x) && Virtual() == rest
      ensures r.Loaded? ==> |z.Contents()| < |old(z.Contents())|
    {
      var b :- LoadBlock(4, ok, EncInt(x), rest);
      IntRound(x);
      r := Loaded(DecInt(b));
    }

    method LoadWord64(ghost ok: bool, ghost x: word64, ghost rest: Bytes) returns (r: Result<word64>)
      requires ok ==> Virtual() == Little(x, 8) + rest
      modifies z
      ensures ok && lost == [] ==> r.Loaded?
      ensures ok && r.Loaded? ==> r == Loaded(x) && Virtual() == rest
      ensures r.Loaded? ==> |z.Contents()| < |old(z.Contents())|
      ensures if |old(z.Contents())| < 8 then r.Bad?
              else r.Loaded? && old(z.Contents()) == Little(r.value, 8) + z.Contents()
    {
      var b :- LoadBlock(8, ok, Little(x, 8), rest);
      PowersOf256();
      LittleRound(x, 8);
      UnLittleBound(b);
      LittleBack(b);
      r := Loaded(UnLittle(b));
    }

    method LoadInteger(ghost ok: bool, ghost x: int64, ghost rest: Bytes) returns (r: Result<int64>)
      requires ok ==> Virtual() == EncInteger(x) + rest
      modifies z
      ensures ok && lost == [] ==> r.Loaded?
      ensures ok && r.Loaded? ==> r == Loaded(x) && Virtual() == rest
      ensures r.Loaded? ==> |z.Contents()| < |old(z.Contents())|
      ensures if |old(z.Contents())| < 8 then r.Bad?
              else r.Loaded? && old(z.Contents()) == EncInteger(r.value) + z.Contents()
    {
      var b :- LoadBlock(8, ok, EncInteger(x), rest);
      IntegerRound(x);
      IntegerBack(b);
      r := Loaded(DecInteger(b));
    }

    method LoadString(ghost ok: bool, ghost t: Option<LString>, ghost rest: Bytes) returns (r: Result<Option<LString>>)
      requires ok ==> NameOk(t) && Virtual() == EncString(t) + rest
      modifies z
      ensures ok && lost == [] ==> r.Loaded?
      ensures ok && r.Loaded? ==> r == Loaded(t) && Virtual() == rest
      ensures r.Loaded? ==> |z.Contents()| < |old(z.Contents())|
    {
      ghost var s := if t.Some? then t.value.s else [];
      assert EncString(t) == StringHead(SizeOf(t)) + s;
      Assoc(StringHead(SizeOf(t)), s, rest);
      var size :- LoadSize(ok, t, s + rest);
      if size == 0 {
        return Loaded(None);
      }
      var b :- LoadBlock(size - 1, ok, s, rest);
      r := Loaded(Some(NewString(b)));
    }

    /** The size of a string, 0 for no string. */
    method LoadSize(ghost ok: bool, ghost t: Option<LString>, ghost rest: Bytes) returns (r: Result<nat>)
      requires ok ==> NameOk(t) && Virtual() == StringHead(SizeOf(t)) + rest
      modifies z
      ensures ok && lost == [] ==> r.Loaded?
      ensures ok && r.Loaded? ==> r == Loaded(SizeOf(t)) && Virtual() == rest
      ensures r.Loaded? ==> |z.Contents()| < |old(z.Contents())|
    {
      ghost var size := SizeOf(t);
      ghost var far := ok && size >= 0xFF;
      ghost var first, tail := FirstOf(size, rest);
      var x :- LoadByte(ok, first, tail);
      if x != 0xFF {
        return Loaded(x as nat);
      }
      var y :- LoadWord64(far, if far then size else 0, rest);
      r := Loaded(y);
    }

    /** The size of a vector; a negative one is an allocation error. */
    method LoadCount(ghost ok: bool, ghost n: nat, ghost rest: Bytes) returns (r: Result<nat>)
      requires ok ==> n <= MAX_INT && Virtual() == EncInt(Size(n)) + rest
      modifies z
      ensures ok && lost == [] ==> r.Loaded?
      ensures ok && r.Loaded? ==> r == Loaded(n) && Virtual() == rest
      ensures r.Loaded? ==> |z.Contents()| < |old(z.Contents())|
    {
      var x :- LoadInt(ok, if ok then Size(n) else 0, rest);
      r := if x < 0 then Bad else Loaded(x);
    }

    method LoadCode(ghost ok: bool, ghost code: seq<word32>, ghost rest: Bytes) returns (r: Result<seq<word32>>)
      requires ok ==> |code| <= MAX_INT && Virtual() == EncVector(Words(code)) + rest
      modifies z
      ensures ok && lost == [] ==> r.Loaded?
      ensures ok && r.Loaded? ==> r == Loaded(code) && Virtual() == rest
      ensures r.Loaded? ==> |z.Contents()| < |old(z.Contents())|
    {
      ghost var block := Flat(Words(code));
      if ok { Assoc(EncInt(Size(|code|)), block, rest); }
      var n :- LoadCount(ok, |code|, block + rest);
      WordsFlat(code);
      var b :- LoadBlock(4 * n, ok, block, rest);
      r := Loaded(UnWords(b, n));
    }

    /** The line numbers, in one block. */
    method LoadInts(ghost ok: bool, ghost l: seq<int32>, ghost rest: Bytes) returns (r: Result<seq<int32>>)
      requires ok ==> |l| <= MAX_INT && Virtual() == EncVector(Ints(l)) + rest
      modifies z
      ensures ok && lost == [] ==> r.Loaded?
      ensures ok && r.Loaded? ==> r == Loaded(l) && Virtual() == rest
      ensures r.Loaded? ==> |z.Contents()| < |old(z.Contents())|
    {
      ghost var block := Flat(Ints(l));
      if ok { Assoc(EncInt(Size(|l|)), block, rest); }
      var n :- LoadCount(ok, |l|, block + rest);
      IntsFlat(l);
      var b :- LoadBlock(4 * n, ok, block, rest);
      r := Loaded(UnInts(b, n));
    }

    /** Unknown tags leave the nil that was there before. */
    method LoadConstant(ghost ok: bool, ghost c: Constant, ghost rest: Bytes) returns (r: Result<Constant>)
      requires ok ==> (c.KStr? ==> StringOk(c.t)) && Virtual() == EncConstant(c) + rest
      modifies z
      ensures ok && lost == [] ==> r.Loaded?
      ensures ok && r.Loaded? ==> r == Loaded(c) && Virtual() == rest
      ensures r.Loaded? ==> |z.Contents()| < |old(z.Contents())|
    {
      ghost var body := ConstantBody(c);
      if ok { Assoc([Tag(c)], body, rest); }
      var t :- LoadByte(ok, Tag(c), body + rest);
      if t == 1 {
        var b :- LoadByte(ok, if c.KBool? then c.b else 0, rest);
        r := Loaded(KBool(b));
      } else if t == 3 {
        var bits :- LoadWord64(ok, if c.KFlt? then c.bits else 0, rest);
        r := Loaded(KFlt(bits));
      } else if t == 19 {
        var i :- LoadInteger(ok, if c.KInt? then c.i else 0, rest);
        r := Loaded(KInt(i));
      } else if t == 4 || t == 20 {
        var s :- LoadString(ok, if c.KStr? then Some(c.t) else None, rest);
        r := if s.None? then Bad else Loaded(KStr(s.value));
      } else {
        r := Loaded(KNil);
      }
    }

    method LoadConstants(ghost ok: bool, ghost k: seq<Constant>, ghost rest: Bytes) returns (r: Result<seq<Constant>>)
      requires ok ==> |k| <= MAX_INT && (forall i :: 0 <= i < |k| ==> k[i].KStr? ==> StringOk(k[i].t))
      requires ok ==> Virtual() == EncVector(Constants(k)) + rest
      modifies z
      ensures ok && lost == [] ==> r.Loaded?
      ensures ok && r.Loaded? ==> r == Loaded(k) && Virtual() == rest
      ensures r.Loaded? ==> |z.Contents()| < |old(z.Contents())|
    {
      ghost var parts, size := Constants(k), |z.Contents()|;
      if ok { Assoc(EncInt(Size(|k|)), Flat(parts), rest); }
      var n :- LoadCount(ok, |k|, Flat(parts) + rest);
      var l: seq<Constant> := [];
      while |l| < n
        invariant |l| <= n && |z.Contents()| < size
        invariant ok ==> n == |k| && l == k[..|l|] && Virtual() == Flat(parts[|l|..]) + rest
      {
        ghost var i, c := |l|, if ok then k[|l|] else KNil;
        if ok { NextPart(parts, i, rest); }
        var x :- LoadConstant(ok, c, if ok then Flat(parts[i + 1..]) + rest else []);
        if ok { Prefix(k, l, x); }
        l := l + [x];
      }
      if ok {
        assert |l| == |parts| && k[..|l|] == k;
        NoParts(parts, rest);
      }
      r := Loaded(l);
    }

    method LoadUpvalue(ghost ok: bool, ghost u: Upvaldesc, ghost rest: Bytes) returns (r: Result<Upvaldesc>)
      requires ok ==> Virtual() == [u.instack, u.idx] + rest
      modifies z
      ensures ok && lost == [] ==> r.Loaded?
      ensures ok && r.Loaded? ==> r == Loaded(u.(name := None)) && Virtual() == rest
      ensures r.Loaded? ==> |z.Contents()| < |old(z.Contents())|
    {
      assert [u.instack, u.idx] + rest == [u.instack] + ([u.idx] + rest);
      var instack :- LoadByte(ok, u.instack, [u.idx] + rest);
      var idx :- LoadByte(ok, u.idx, rest);
      r := Loaded(Upvaldesc(None, instack, idx));
    }

    method LoadUpvalues(ghost ok: bool, ghost us: seq<Upvaldesc>, ghost rest: Bytes) returns (r: Result<seq<Upvaldesc>>)
      requires ok ==> |us| <= MAX_INT && Virtual() == EncVector(Upvalues(us)) + rest
      modifies z
      ensures ok && lost == [] ==> r.Loaded?
      ensures ok && r.Loaded? ==> r == Loaded(Unnamed(us)) && Virtual() == rest
      ensures r.Loaded? ==> |z.Contents()| < |old(z.Contents())|
    {
      ghost var parts, size := Upvalues(us), |z.Contents()|;
      if ok { Assoc(EncInt(Size(|us|)), Flat(parts), rest); }
      var n :- LoadCount(ok, |us|, Flat(parts) + rest);
      var l: seq<Upvaldesc> := [];
      while |l| < n
        invariant |l| <= n && |z.Contents()| < size
        invariant ok ==> n == |us| && l == Unnamed(us)[..|l|] && Virtual() == Flat(parts[|l|..]) + rest
      {
        ghost var i, u := |l|, if ok then us[|l|] else Upvaldesc(None, 0, 0);
        if ok { NextPart(parts, i, rest); }
        var x :- LoadUpvalue(ok, u, if ok then Flat(parts[i + 1..]) + rest else []);
        if ok { Prefix(Unnamed(us), l, x); }
        l := l + [x];
      }
      if ok {
        assert |l| == |parts| && Unnamed(us)[..|l|] == Unnamed(us);
        NoParts(parts, rest);
      }
      r := Loaded(l);
    }

    method LoadLocVar(ghost ok: bool, ghost v: LocVar, ghost rest: Bytes) returns (r: Result<LocVar>)
      requires ok ==> NameOk(v.varname) && Virtual() == EncLocVar(v) + rest
      modifies z
      ensures ok && lost == [] ==> r.Loaded?
      ensures ok && r.Loaded? ==> r == Loaded(v) && Virtual() == rest
      ensures r.Loaded? ==> |z.Contents()| < |old(z.Contents())|
    {
      Assoc(EncString(v.varname) + EncInt(v.startpc), EncInt(v.endpc), rest);
      Assoc(EncString(v.varname), EncInt(v.startpc), EncInt(v.endpc) + rest);
      var name :- LoadString(ok, v.varname, EncInt(v.startpc) + (EncInt(v.endpc) + rest));
      var startpc :- LoadInt(ok, v.startpc, EncInt(v.endpc) + rest);
      var endpc :- LoadInt(ok, v.endpc, rest);
      r := Loaded(LocVar(name, startpc, endpc));
    }

    method LoadLocVars(ghost ok: bool, ghost vs: seq<LocVar>, ghost rest: Bytes) returns (r: Result<seq<LocVar>>)
      requires ok ==> |vs| <= MAX_INT && (forall i :: 0 <= i < |vs| ==> NameOk(vs[i].varname))
      requires ok ==> Virtual() == EncVector(LocVars(vs)) + rest
      modifies z
      ensures ok && lost == [] ==> r.Loaded?
      ensures ok && r.Loaded? ==> r == Loaded(vs) && Virtual() == rest
      ensures r.Loaded? ==> |z.Contents()| < |old(z.Contents())|
    {
      ghost var parts, size := LocVars(vs), |z.Contents()|;
      if ok { Assoc(EncInt(Size(|vs|)), Flat(parts), rest); }
      var n :- LoadCount(ok, |vs|, Flat(parts) + rest);
      var l: seq<LocVar> := [];
      while |l| < n
        invariant |l| <= n && |z.Contents()| < size
        invariant ok ==> n == |vs| && l == vs[..|l|] && Virtual() == Flat(parts[|l|..]) + rest
      {
        ghost var i, v := |l|, if ok then vs[|l|] else LocVar(None, 0, 0);
        if ok { NextPart(parts, i, rest); }
        var x :- LoadLocVar(ok, v, if ok then Flat(parts[i + 1..]) + rest else []);
        if ok { Prefix(vs, l, x); }
        l := l + [x];
      }
      if ok {
        assert |l| == |parts| && vs[..|l|] == vs;
        NoParts(parts, rest);
      }
      r := Loaded(l);
    }

    /** The name of upvalue `i`. */
    method LoadName(l: seq<Upvaldesc>, i: nat, ghost ok: bool, ghost us: seq<Upvaldesc>, ghost parts: seq<Bytes>,
                    ghost rest: Bytes) returns (r: Result<seq<Upvaldesc>>)
      requires i < |l| && (ok ==> parts == Names(us) && l == Named(us, i) && NameOk(us[i].name))
      requires ok ==> Virtual() == Flat(parts[i..]) + rest
      modifies z
      ensures ok && lost == [] ==> r.Loaded?
      ensures ok && r.Loaded? ==> r == Loaded(Named(us, i + 1)) && Virtual() == Flat(parts[i + 1..]) + rest
      ensures r.Loaded? ==> |r.value| == |l| && |z.Contents()| < |old(z.Contents())|
    {
      if ok { NextPart(parts, i, rest); }
      var name :- LoadString(ok, if ok then us[i].name else None, if ok then Flat(parts[i + 1..]) + rest else []);
      if ok { NamedStep(us, i); }
      r := Loaded(l[i := l[i].(name := name)]);
    }

    /** The names of the upvalues that are there; more names than upvalues are an error. */
    method LoadNames(us0: seq<Upvaldesc>, ghost ok: bool, ghost us: seq<Upvaldesc>, ghost names: seq<Upvaldesc>,
                     ghost rest: Bytes) returns (r: Result<seq<Upvaldesc>>)
      requires ok ==> |us| <= MAX_INT && us0 == Unnamed(us) && (names == us || names == [])
      requires ok ==> forall i :: 0 <= i < |us| ==> NameOk(us[i].name)
      requires ok ==> Virtual() == EncVector(Names(names)) + rest
      modifies z
      ensures ok && lost == [] ==> r.Loaded?
      ensures ok && r.Loaded? ==> r == Loaded(if names == [] then Unnamed(us) else us) && Virtual() == rest
      ensures r.Loaded? ==> |z.Contents()| < |old(z.Contents())|
    {
      ghost var parts, size := Names(names), |z.Contents()|;
      NamedEnds(us);
      if ok { Assoc(EncInt(Size(|names|)), Flat(parts), rest); }
      var n :- LoadCount(ok, |names|, Flat(parts) + rest);
      var l, i := us0, 0;
      while i < n
        invariant 0 <= i <= n && |l| == |us0| && |z.Contents()| < size
        invariant ok ==> n == |names| && Virtual() == Flat(parts[i..]) + rest && l == Named(us, i)
      {
        if i >= |l| { return Bad; }
        l :- LoadName(l, i, ok, us, parts, rest);
        i := i + 1;
      }
      if ok {
        NoParts(parts, rest);
      }
      r := Loaded(l);
    }

    /** Debug information of a prototype whose code and upvalues have been loaded. */
    method LoadDebug(us0: seq<Upvaldesc>, ghost ok: bool, ghost f: Proto, ghost strip: bool, ghost rest: Bytes)
      returns (r: Result<(seq<int32>, seq<LocVar>, seq<Upvaldesc>)>)
      requires ok ==> ProtoOk(f) && us0 == Unnamed(f.upvalues) && Virtual() == EncDebug(f, strip) + rest
      modifies z
      ensures ok && lost == [] ==> r.Loaded?
      ensures ok && r.Loaded? ==> r == Loaded(DebugOf(f, strip)) && Virtual() == rest
      ensures r.Loaded? ==> |z.Contents()| < |old(z.Contents())|
    {
      ghost var lines, vars, names := if strip then [] else f.lineinfo, if strip then [] else f.locvars,
                                      if strip then [] else f.upvalues;
      ghost var e2, e3 := if ok then EncVector(LocVars(vars)) else [], if ok then EncVector(Names(names)) else [];
      if ok {
        Assoc(EncVector(Ints(lines)) + e2, e3, rest);
        Assoc(EncVector(Ints(lines)), e2, e3 + rest);
      }
      var lineinfo :- LoadInts(ok, lines, e2 + (e3 + rest));
      var locvars :- LoadLocVars(ok, vars, e3 + rest);
      var upvalues :- LoadNames(us0, ok, f.upvalues, names, rest);
      r := Loaded((lineinfo, locvars, upvalues));
    }

    /** What LoadFunction reads before the code. */
    method LoadHead(psource: Option<LString>, ghost ok: bool, ghost f: Proto, ghost dsource: Option<LString>,
                    ghost strip: bool, ghost rest: Bytes) returns (r: Result<Proto>)
      requires ok ==> NameOk(f.source) && Virtual() == EncHead(f, dsource, strip) + rest
      modifies z
      ensures ok && lost == [] ==> r.Loaded?
      ensures ok && r.Loaded? ==> Virtual() == rest
      ensures ok && r.Loaded? ==>
                r == Loaded(HeadOf(f, if DumpedSource(f, dsource, strip).None? then psource else f.source))
      ensures r.Loaded? ==> |z.Contents()| < |old(z.Contents())|
    {
      ghost var source := DumpedSource(f, dsource, strip);
      ghost var t5 := [f.maxstacksize] + rest;
      ghost var t4 := [f.is_vararg] + t5;
      ghost var t3 := [f.numparams] + t4;
      ghost var t2 := EncInt(f.lastlinedefined) + t3;
      ghost var t1 := EncInt(f.linedefined) + t2;
      HeadSplit(f, source, rest);
      var s :- LoadString(ok, source, t1);
      if s == None {
        s := psource;
      }
      var linedefined :- LoadInt(ok, f.linedefined, t2);
      var lastlinedefined :- LoadInt(ok, f.lastlinedefined, t3);
      var numparams :- LoadByte(ok, f.numparams, t4);
      var is_vararg :- LoadByte(ok, f.is_vararg, t5);
      var maxstacksize :- LoadByte(ok, f.maxstacksize, rest);
      r := Loaded(Proto(s, linedefined, lastlinedefined, numparams, is_vararg, maxstacksize, [], [], [], [], [], []));
    }

    method LoadFunction(psource: Option<LString>, ghost ok: bool, ghost f: Proto, ghost dsource: Option<LString>,
                        ghost strip: bool, ghost rest: Bytes) returns (r: Result<Proto>)
      requires ok ==> ProtoOk(f) && Virtual() == EncFunction(f, dsource, strip) + rest
      modifies z
      ensures ok && lost == [] ==> r.Loaded?
      ensures ok && r.Loaded? ==> r == Loaded(Reloaded(f, dsource, psource, strip)) && Virtual() == rest
      ensures r.Loaded? ==> |z.Contents()| < |old(z.Contents())|
      decreases |z.Contents()|, 0
    {
      ghost var t0, t1, t2, t3, t4: Bytes := rest, rest, rest, rest, rest;
      if ok { t0, t1, t2, t3, t4 := FunctionSplit(f, dsource, strip, rest); }
      var g :- LoadHead(psource, ok, f, dsource, strip, t0);
      var code :- LoadCode(ok, f.code, t1);
      var k :- LoadConstants(ok, f.k, t2);
      var us :- LoadUpvalues(ok, f.upvalues, t3);
      ghost var p1 := if ok then ReloadedProtos(f, g.source, strip) else [];
      var p :- LoadProtos(g.source, ok, f, strip, p1, t4);
      var debug :- LoadDebug(us, ok, f, strip, rest);
      r := Loaded(g.(code := code, k := k, p := p, lineinfo := debug.0, locvars := debug.1, upvalues := debug.2));
      if ok { PutTogether(f, dsource, psource, strip, g, debug); }
    }

    method LoadProtos(source: Option<LString>, ghost ok: bool, ghost f: Proto, ghost strip: bool,
                      ghost full: seq<Proto>,
                      ghost rest: Bytes) returns (r: Result<seq<Proto>>)
      requires ok ==> ProtoOk(f) && full == ReloadedProtos(f, source, strip)
      requires ok ==> Virtual() == EncVector(Protos(f, strip)) + rest
      modifies z
      ensures ok && lost == [] ==> r.Loaded?
      ensures ok && r.Loaded? ==> r == Loaded(full) && Virtual() == rest
      ensures r.Loaded? ==> |z.Contents()| < |old(z.Contents())|
      decreases |z.Contents()|, 3
    {
      ghost var parts := if ok then Protos(f, strip) else [];
      if ok { Assoc(EncInt(Size(|f.p|)), Flat(parts), rest); }
      var n :- LoadCount(ok, |f.p|, Flat(parts) + rest);
      if ok { NestedAll(source, f, strip, full, parts); }
      r := LoadAllNested(n, source, ok, f, strip, full, parts, rest);
    }

    method LoadAllNested(n: nat, source: Option<LString>, ghost ok: bool, ghost f: Proto, ghost strip: bool,
                         ghost full: seq<Proto>, ghost parts: seq<Bytes>, ghost rest: Bytes)
                           returns (r: Result<seq<Proto>>)
      requires ok ==> n == |full| == |parts| && Virtual() == Flat(parts[0..]) + rest
      requires forall i :: 0 <= i < n ==> NestedAt(ok, source, f, strip, full, parts, i)
      modifies z
      ensures ok && lost == [] ==> r.Loaded?
      ensures ok && r.Loaded? ==> r == Loaded(full) && Virtual() == rest
      ensures r.Loaded? ==> |z.Contents()| <= |old(z.Contents())|
      decreases |z.Contents()|, 2
    {
      ghost var size := |z.Contents()|;
      var l: seq<Proto>, i: nat := [], 0;
      while i < n
        invariant i <= n && |l| == i && |z.Contents()| <= size
        invariant ok ==> l == full[..i] && Virtual() == Flat(parts[i..]) + rest
      {
        var x :- LoadNested(source, ok, f, i, strip, full, parts, rest);
        if ok { Prefix(full, l, x); }
        l, i := l + [x], i + 1;
      }
      if ok {
        assert full[..i] == full;
        NoParts(parts, rest);
      }
      r := Loaded(l);
    }

    method LoadNested(source: Option<LString>, ghost ok: bool, ghost f: Proto, ghost i: nat, ghost strip: bool,
                      ghost full: seq<Proto>, ghost parts: seq<Bytes>, ghost rest: Bytes) returns (r: Result<Proto>)
      requires NestedAt(ok, source, f, strip, full, parts, i)
      requires ok ==> i < |full| && i < |parts| && Virtual() == Flat(parts[i..]) + rest
      modifies z
      ensures ok && lost == [] ==> r.Loaded?
      ensures ok && r.Loaded? ==> r == Loaded(full[i]) && Virtual() == Flat(parts[i + 1..]) + rest
      ensures r.Loaded? ==> |z.Contents()| < |old(z.Contents())|
      decreases |z.Contents()|, 1
    {
      if ok { NextPart(parts, i, rest); }
      ghost var left := if ok then Flat(parts[i + 1..]) + rest else [];
      r := LoadFunction(source, ok, if ok then f.p[i] else f, f.source, strip, left);
    }

    method CheckLiteral(s: Bytes) returns (good: bool)
      modifies z
      ensures good <==> s <= old(z.Contents())
      ensures good ==> old(z.Contents()) == s + z.Contents()
    {
      var r := LoadBlock(|s|, false, [], []);
      good := r.Loaded? && r.value == s;
      if r.Loaded? { SamePrefix(s, r.value, z.Contents()); }
    }

    /** checkHeader, after the first character: exactly the header of this version on
        this machine is accepted. */
    method CheckHeader() returns (good: bool)
      modifies z
      ensures good <==> EncHeader()[1..] <= old(z.Contents())
      ensures good ==> old(z.Contents()) == EncHeader()[1..] + z.Contents()
    {
      ghost var t1, t2, t3, t4, t5, t6 := HeaderTails();
      ghost var all, head := z.Contents(), [];
      good, head := CheckNext(all, [], SIGNATURE[1..], t1);
      if !good { return; }
      good, head := CheckNext(all, head, [LUAC_VERSION], t2);
      if !good { return; }
      good, head := CheckNext(all, head, [LUAC_FORMAT], t3);
      if !good { return; }
      good, head := CheckNext(all, head, LUAC_DATA, t4);
      if !good { return; }
      good, head := CheckNext(all, head, SIZES, t5);
      if !good { return; }
      good, head := CheckStoredInteger(all, head, t6);
      if !good { return; }
      good, head := CheckStoredNumber(all, head, []);
    }

    /** One more part of the header. */
    method CheckNext(ghost all: Bytes, ghost head: Bytes, s: Bytes, ghost tail: Bytes)
      returns (good: bool, ghost head1: Bytes)
      requires all == head + z.Contents()
      modifies z
      ensures head1 == head + s && (good <==> s <= old(z.Contents()))
      ensures good ==> all == head1 + z.Contents() && (s + tail <= old(z.Contents()) <==> tail <= z.Contents())
    {
      ghost var before := z.Contents();
      good := CheckLiteral(s);
      head1 := head + s;
      if good { Checked(all, head, s, tail, before, z.Contents()); }
    }

    /** Integers are stored as here. */
    method CheckStoredInteger(ghost all: Bytes, ghost head: Bytes, ghost tail: Bytes)
      returns (good: bool, ghost head1: Bytes)
      requires all == head + z.Contents()
      modifies z
      ensures head1 == head + EncInteger(LUAC_INT) && (good <==> EncInteger(LUAC_INT) <= old(z.Contents()))
      ensures good ==>
                && all == head1 + z.Contents()
                && (EncInteger(LUAC_INT) + tail <= old(z.Contents()) <==> tail <= z.Contents())
    {
      ghost var before := z.Contents();
      var i := LoadInteger(false, 0, []);
      good := i == Loaded(LUAC_INT);
      head1 := head + EncInteger(LUAC_INT);
      if i.Loaded? {
        SamePrefix(EncInteger(LUAC_INT), EncInteger(i.value), z.Contents());
        IntegerRound(i.value);
        IntegerRound(LUAC_INT);
      }
      if good { Checked(all, head, EncInteger(LUAC_INT), tail, before, z.Contents()); }
    }

    /** Floats are stored as here. */
    method CheckStoredNumber(ghost all: Bytes, ghost head: Bytes, ghost tail: Bytes)
      returns (good: bool, ghost head1: Bytes)
      requires all == head + z.Contents()
      modifies z
      ensures head1 == head + Little(LUAC_NUM, 8) && (good <==> Little(LUAC_NUM, 8) <= old(z.Contents()))
      ensures good ==>
                && all == head1 + z.Contents()
                && (Little(LUAC_NUM, 8) + tail <= old(z.Contents()) <==> tail <= z.Contents())
    {
      ghost var before := z.Contents();
      var x := LoadWord64(false, 0, []);
      good := x == Loaded(LUAC_NUM);
      head1 := head + Little(LUAC_NUM, 8);
      if x.Loaded? {
        SamePrefix(Little(LUAC_NUM, 8), Little(x.value, 8), z.Contents());
        Round64(x.value);
        Round64(LUAC_NUM);
      }
      if good { Checked(all, head, Little(LUAC_NUM, 8), tail, before, z.Contents()); }
    }
  }

  /** luaU_undump, for a stream whose first character has been read: whatever the
      pieces of the stream are, the dump of a prototype gives it back, and a dump whose
      end `lost` has been cut off is an error. */
  method UndumpChunk(z: ZIO, ghost ok: bool, ghost f: Proto, ghost strip: bool, ghost lost: Bytes)
    returns (r: Result<Proto>)
    requires ok ==> ProtoOk(f) && |f.upvalues| < 256 && z.Contents() + lost == EncChunk(f, strip)[1..]
    modifies z
    ensures ok ==> if lost == [] then r == Loaded(Reloaded(f, None, None, strip)) else r.Bad?
    ensures r.Loaded? ==> EncHeader()[1..] <= old(z.Contents())
  {
    var S := new LoadState(z, lost);
    ghost var t2 := if ok then EncFunction(f, None, strip) else [];
    ghost var t1 := if ok then [|f.upvalues| as byte] + t2 else [];
    if ok { ChunkSplit(f, strip, t1, t2); }
    if ok { SamePrefix(EncHeader()[1..], EncHeader()[1..], t1); }
    var good := S.CheckHeader();
    if !good { return Bad; }
    if ok {
      Assoc(EncHeader()[1..], z.Contents(), lost);
      SameRest(EncHeader()[1..], t1, S.Virtual());
    }
    var n :- S.LoadByte(ok, if ok then |f.upvalues| as byte else 0, t2);
    r := S.LoadFunction(None, ok, f, None, strip, []);
  }

  /** A chunk dumped to a writer that does not fail and loaded again from any pieces
      that make up the same bytes. */
  method RoundTrip(f: Proto, strip: bool, writer: Writer, pieces: seq<Bytes>) returns (status: int, r: Result<Proto>)
    requires ProtoOk(f) && |f.upvalues| < 256
    ensures NeverFails(writer) ==> status == 0
    ensures status == 0 && Joined(pieces) == EncChunk(f, strip) ==> r == Loaded(Reloaded(f, None, None, strip))
    ensures status == 0 && Joined(pieces) == EncChunk(f, strip) && !strip && SourcesOk(f, None) ==> r == Loaded(f)
    ensures status == 0 && Joined(pieces) == EncChunk(f, strip) && strip ==> r == Loaded(Erased(f))
    ensures status == 0 && Joined(pieces) < EncChunk(f, strip) ==> r.Bad?
  {
    var out;
    ghost var blocks;
    status, out, blocks := DumpChunk(f, strip, writer);
    var z := new ZIO(pieces);
    var c := z.GetChar();
    ghost var all, got := EncChunk(f, strip), Joined(pieces);
    ghost var ok := got <= all && got != [];
    ghost var lost := if ok then all[|got|..] else [];
    if ok { CutRest(all, got, lost); }
    r := UndumpChunk(z, ok, f, strip, lost);
    ReloadedIsSame(f, None);
    ReloadedIsErased(f, None);
  }

  lemma CutFront(all: Bytes, lost: Bytes, b: Bytes, rest: Bytes, n: nat)
    requires all + lost == b + rest && |b| == n <= |all|
    ensures all[..n] == b && all[n..] + lost == rest
  {
    assert (all + lost)[..n] == all[..n] && (b + rest)[..n] == b;
    assert (all + lost)[n..] == all[n..] + lost && (b + rest)[n..] == rest;
  }

  lemma CutRest(all: Bytes, got: Bytes, lost: Bytes)
    requires got <= all && got != [] && lost == all[|got|..]
    ensures got[1..] + lost == all[1..] && (lost == [] <==> got == all)
  {
    assert got + lost == all;
    assert (got + lost)[1..] == got[1..] + lost;
  }

  /** What the header still has after each of its parts. */
  lemma HeaderTails() returns (t1: Bytes, t2: Bytes, t3: Bytes, t4: Bytes, t5: Bytes, t6: Bytes)
    ensures EncHeader()[1..] == SIGNATURE[1..] + t1 && t1 == [LUAC_VERSION] + t2 && t2 == [LUAC_FORMAT] + t3
    ensures t3 == LUAC_DATA + t4 && t4 == SIZES + t5 && t5 == EncInteger(LUAC_INT) + t6
    ensures t6 == Little(LUAC_NUM, 8) + []
    ensures EncHeader()[1..] == [] + SIGNATURE[1..] + [LUAC_VERSION] + [LUAC_FORMAT] + LUAC_DATA + SIZES
                                + EncInteger(LUAC_INT) + Little(LUAC_NUM, 8)
  {
    var h := Little(LUAC_NUM, 8);
    t6 := h + [];
    t5 := EncInteger(LUAC_INT) + t6;
    t4 := SIZES + t5;
    t3 := LUAC_DATA + t4;
    t2 := [LUAC_FORMAT] + t3;
    t1 := [LUAC_VERSION] + t2;
    SevenParts(SIGNATURE, [LUAC_VERSION], [LUAC_FORMAT], LUAC_DATA, SIZES, EncInteger(LUAC_INT), h);
    FirstPart(SIGNATURE, [LUAC_VERSION], [LUAC_FORMAT], LUAC_DATA, SIZES, EncInteger(LUAC_INT), h);
  }

  lemma FirstPart(a: Bytes, b: Bytes, c: Bytes, d: Bytes, e: Bytes, g: Bytes, h: Bytes)
    requires a != []
    ensures (a + b + c + d + e + g + h)[1..] == [] + a[1..] + b + c + d + e + g + h && h + [] == h
  {
  }

  lemma SevenParts(a: Bytes, b: Bytes, c: Bytes, d: Bytes, e: Bytes, g: Bytes, h: Bytes)
    requires a != []
    ensures (a + b + c + d + e + g + h)[1..] == a[1..] + (b + (c + (d + (e + (g + h)))))
  {
    SixParts(a + b, c, d, e, g, h, []);
    assert (a + b) + (c + (d + (e + (g + (h + []))))) == a + (b + (c + (d + (e + (g + h)))));
    assert a + b + c + d + e + g + h + [] == a + b + c + d + e + g + h;
  }

  lemma SamePrefix(s: Bytes, t: Bytes, rest: Bytes)
    requires |s| == |t|
    ensures s <= t + rest <==> s == t
  {
    assert (t + rest)[..|t|] == t;
  }

  /** A part of the header has been found. */
  lemma Checked(all: Bytes, head: Bytes, s: Bytes, tail: Bytes, before: Bytes, after: Bytes)
    requires all == head + before && before == s + after
    ensures all == head + s + after && (s + tail <= before <==> tail <= after)
  {
    assert before[|s|..] == after;
    assert s + tail <= before ==>
             before[..|s| + |tail|] == s + tail && before[..|s| + |tail|][|s|..] == after[..|tail|];
  }

  /** Eight bytes are those of the number that they stand for. */
  lemma IntegerBack(b: Bytes)
    requires |b| == 8
    ensures EncInteger(DecInteger(b)) == b
  {
    PowersOf256();
    UnLittleBound(b);
    LittleBack(b);
    SignBack(UnLittle(b));
  }

  lemma SignBack(x: nat)
    requires x < 0x1_0000_0000_0000_0000
    ensures Signed64(x) % 0x1_0000_0000_0000_0000 == x
  {
  }

  lemma SameRest(s: Bytes, a: Bytes, b: Bytes)
    requires s + a == s + b
    ensures a == b
  {
    assert (s + a)[|s|..] == a && (s + b)[|s|..] == b;
  }

  lemma ChunkSplit(f: Proto, strip: bool, t1: Bytes, t2: Bytes)
    requires ProtoOk(f) && |f.upvalues| < 256 && t2 == EncFunction(f, None, strip) && t1 == [|f.upvalues| as byte] + t2
    ensures EncChunk(f, strip)[1..] == EncHeader()[1..] + t1 && EncFunction(f, None, strip) + [] == t2
  {
    ChunkTail(EncHeader(), [|f.upvalues| as byte], t2);
  }

  lemma ChunkTail(h: Bytes, b: Bytes, t: Bytes)
    requires h != []
    ensures (h + b + t)[1..] == h[1..] + (b + t) && t + [] == t
  {
  }

  /** Upvalues of which the first `n` have got their names. */
  function Named(us: seq<Upvaldesc>, n: nat): seq<Upvaldesc> {
    seq(|us|, i requires 0 <= i < |us| => if i < n then us[i] else us[i].(name := None))
  }

  lemma NamedEnds(us: seq<Upvaldesc>)
    ensures Named(us, 0) == Unnamed(us) && Named(us, |us|) == us
  {
  }

  lemma NamedStep(us: seq<Upvaldesc>, i: nat)
    requires i < |us|
    ensures Named(us, i)[i := Named(us, i)[i].(name := us[i].name)] == Named(us, i + 1)
  {
  }

  /** The bytes and the result of the nested function `i`. */
  ghost predicate NestedAt(ok: bool, source: Option<LString>, f: Proto, strip: bool, full: seq<Proto>,
                           parts: seq<Bytes>, i: nat) {
    !ok || (&& i < |f.p| && i < |full| && i < |parts| && ProtoOk(f.p[i])
            && parts[i] == EncFunction(f.p[i], f.source, strip) && full[i] == Reloaded(f.p[i], f.source, source, strip))
  }

  lemma NestedAll(source: Option<LString>, f: Proto, strip: bool, full: seq<Proto>, parts: seq<Bytes>)
    requires ProtoOk(f) && parts == Protos(f, strip) && full == ReloadedProtos(f, source, strip)
    ensures |full| == |parts| == |f.p| && parts[0..] == parts
    ensures forall i :: 0 <= i < |f.p| ==> NestedAt(true, source, f, strip, full, parts, i)
  {
  }

  /** The three parts of the debug information that come back. */
  function DebugOf(f: Proto, strip: bool): (seq<int32>, seq<LocVar>, seq<Upvaldesc>) {
    if strip then ([], [], Unnamed(f.upvalues)) else (f.lineinfo, f.locvars, f.upvalues)
  }

  /** A prototype of which only the head has been loaded. */
  function HeadOf(f: Proto, source: Option<LString>): Proto {
    f.(source := source, code := [], k := [], upvalues := [], p := [], lineinfo := [], locvars := [])
  }

  lemma PutTogether(f: Proto, dsource: Option<LString>, psource: Option<LString>, strip: bool, g: Proto,
                    debug: (seq<int32>, seq<LocVar>, seq<Upvaldesc>))
    requires g == HeadOf(f, if DumpedSource(f, dsource, strip).None? then psource else f.source)
    requires debug == DebugOf(f, strip)
    ensures g.(code := f.code, k := f.k, p := ReloadedProtos(f, g.source, strip), lineinfo := debug.0,
               locvars := debug.1,
               upvalues := debug.2) == Reloaded(f, dsource, psource, strip)
  {
  }

  function ReloadedProtos(f: Proto, source: Option<LString>, strip: bool): seq<Proto> {
    seq(|f.p|, i requires 0 <= i < |f.p| => Reloaded(f.p[i], f.source, source, strip))
  }

  lemma HeadSplit(f: Proto, source: Option<LString>, rest: Bytes)
    ensures EncString(source) + EncInt(f.linedefined) + EncInt(f.lastlinedefined)
              + [f.numparams] + [f.is_vararg] + [f.maxstacksize] + rest ==
            EncString(source) + (EncInt(f.linedefined) + (EncInt(f.lastlinedefined)
              + ([f.numparams] + ([f.is_vararg] + ([f.maxstacksize] + rest)))))
  {
  }

  /** What is left of the input after each part of a function. */
  lemma FunctionSplit(f: Proto, dsource: Option<LString>, strip: bool, rest: Bytes)
    returns (t0: Bytes, t1: Bytes, t2: Bytes, t3: Bytes, t4: Bytes)
    requires ProtoOk(f)
    ensures EncFunction(f, dsource, strip) + rest == EncHead(f, dsource, strip) + t0
    ensures t0 == EncVector(Words(f.code)) + t1 && t1 == EncVector(Constants(f.k)) + t2
    ensures t2 == EncVector(Upvalues(f.upvalues)) + t3 && t3 == EncVector(Protos(f, strip)) + t4
    ensures t4 == EncDebug(f, strip) + rest
  {
    var a, b, c := EncHead(f, dsource, strip), EncVector(Words(f.code)), EncVector(Constants(f.k));
    var d, e, g := EncVector(Upvalues(f.upvalues)), EncVector(Protos(f, strip)), EncDebug(f, strip);
    t4 := g + rest;
    t3 := e + t4;
    t2 := d + t3;
    t1 := c + t2;
    t0 := b + t1;
    SixParts(a, b, c, d, e, g, rest);
  }

  lemma SixParts(a: Bytes, b: Bytes, c: Bytes, d: Bytes, e: Bytes, g: Bytes, rest: Bytes)
    ensures a + b + c + d + e + g + rest == a + (b + (c + (d + (e + (g + rest)))))
  {
  }

  lemma NextPart(parts: seq<Bytes>, i: nat, rest: Bytes)
    requires i < |parts|
    ensures Flat(parts[i..]) + rest == parts[i] + (Flat(parts[i + 1..]) + rest)
  {
    FlatFirst(parts[i..]);
    assert parts[i..][1..] == parts[i + 1..];
    Assoc(parts[i], Flat(parts[i + 1..]), rest);
  }

  lemma Prefix<T>(full: seq<T>, l: seq<T>, x: T)
    requires |l| < |full| && l == full[..|l|] && x == full[|l|]
    ensures l + [x] == full[..|l| + 1]
  {
  }

  lemma NoParts(parts: seq<Bytes>, rest: Bytes)
    ensures Flat(parts[|parts|..]) + rest == rest
  {
    assert parts[|parts|..] == [];
  }

  function ConstantBody(c: Constant): Bytes {
    match c
    case KNil => []
    case KBool(b) => [b]
    case KFlt(bits) => Little(bits, 8)
    case KInt(i) => EncInteger(i)
    case KStr(t) => EncString(Some(t))
  }

  function SizeOf(t: Option<LString>): nat {
    if t.None? then 0 else |t.value.s| + 1
  }

  /** The first byte of the head of a string. */
  lemma FirstOf(size: nat, rest: Bytes) returns (first: byte, tail: Bytes)
    ensures StringHead(size) + rest == [first] + tail
    ensures if size < 0xFF then first as nat == size && tail == rest
            else first == 0xFF && tail == Little(size, 8) + rest
  {
    if size < 0xFF {
      first, tail := size as byte, rest;
    } else {
      first, tail := 0xFF, Little(size, 8) + rest;
      Assoc([0xFF], Little(size, 8), rest);
    }
  }

  function UnWords(b: Bytes, n: nat): seq<word32>
    requires |b| == 4 * n
  {
    seq(n, i requires 0 <= i < n => UnWord(b[4 * i..4 * i + 4]))
  }

  function UnWord(b: Bytes): word32
    requires |b| == 4
  {
    UnLittle(b) % 0x1_0000_0000
  }

  function UnInts(b: Bytes, n: nat): seq<int32>
    requires |b| == 4 * n
  {
    seq(n, i requires 0 <= i < n => DecInt(b[4 * i..4 * i + 4]))
  }

  /** Elements of four bytes lie where they should. */
  lemma {:induction false} FlatFours(parts: seq<Bytes>)
    requires forall i :: 0 <= i < |parts| ==> |parts[i]| == 4
    ensures |Flat(parts)| == 4 * |parts|
    ensures forall i :: 0 <= i < |parts| ==> Flat(parts)[4 * i..4 * i + 4] == parts[i]
  {
    if parts != [] {
      var last := |parts| - 1;
      FlatFours(parts[..last]);
      assert Flat(parts) == Flat(parts[..last]) + parts[last];
      forall i | 0 <= i < |parts| ensures Flat(parts)[4 * i..4 * i + 4] == parts[i] {
        if i < last {
          assert Flat(parts[..last])[4 * i..4 * i + 4] == parts[..last][i];
          InFront(Flat(parts[..last]), parts[last], 4 * i);
        } else {
          AtEnd(Flat(parts[..last]), parts[last]);
        }
      }
    }
  }

  lemma InFront(a: Bytes, b: Bytes, k: nat)
    requires k + 4 <= |a|
    ensures (a + b)[k..k + 4] == a[k..k + 4]
  {
  }

  lemma AtEnd(a: Bytes, b: Bytes)
    ensures (a + b)[|a|..|a| + |b|] == b
  {
  }

  lemma WordsFlat(code: seq<word32>)
    ensures |Flat(Words(code))| == 4 * |code| && UnWords(Flat(Words(code)), |code|) == code
  {
    FlatFours(Words(code));
    PowersOf256();
    forall i | 0 <= i < |code| ensures UnWords(Flat(Words(code)), |code|)[i] == code[i] {
      LittleRound(code[i], 4);
      assert Flat(Words(code))[4 * i..4 * i + 4] == Words(code)[i];
    }
  }

  lemma IntsFlat(l: seq<int32>)
    ensures |Flat(Ints(l))| == 4 * |l| && UnInts(Flat(Ints(l)), |l|) == l
  {
    FlatFours(Ints(l));
    forall i | 0 <= i < |l| ensures UnInts(Flat(Ints(l)), |l|)[i] == l[i] {
      IntRound(l[i]);
      assert Flat(Ints(l))[4 * i..4 * i + 4] == Ints(l)[i];
    }
  }

  lemma {:induction false} UnLittleBound(b: Bytes)
    ensures UnLittle(b) < Power(256, |b|)
  {
    if b != [] { UnLittleBound(b[1..]); }
  }
}
