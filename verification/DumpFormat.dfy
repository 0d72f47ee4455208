/** Function prototypes and the bytes of a precompiled chunk (src/lobject.h,
    src/ldump.c, src/lundump.h). */
module DumpFormat {
  import opened LuaValues
  import opened Powers

  newtype byte = x: int | 0 <= x < 256
  type int32 = x: int | -0x8000_0000 <= x < 0x8000_0000 witness 0
  type int64 = x: int | MIN_INTEGER <= x <= MAX_INTEGER witness 0
  type word32 = x: int | 0 <= x < 0x1_0000_0000
  type word64 = x: int | 0 <= x < 0x1_0000_0000_0000_0000

  type Bytes = seq<byte>

  const LUAI_MAXSHORTLEN: nat := 40

  /** The two variants of strings; a string is short exactly when it fits. */
  datatype LString = Short(s: Bytes) | Long(s: Bytes)

  predicate StringOk(t: LString) {
    t.Short? == (|t.s| <= LUAI_MAXSHORTLEN) && |t.s| < 0x7fff_ffff_ffff_ffff
  }

  /** luaS_newlstr */
  function NewString(s: Bytes): LString {
    if |s| <= LUAI_MAXSHORTLEN then Short(s) else Long(s)
  }

  /** Constants; a float is its bits. */
  datatype Constant = KNil | KBool(b: byte) | KFlt(bits: word64) | KInt(i: int64) | KStr(t: LString)

  datatype Upvaldesc = Upvaldesc(name: Option<LString>, instack: byte, idx: byte)

  datatype LocVar = LocVar(varname: Option<LString>, startpc: int32, endpc: int32)

  datatype Proto = Proto(
    source: Option<LString>,
    linedefined: int32,
    lastlinedefined: int32,
    numparams: byte,
    is_vararg: byte,
    maxstacksize: byte,
    code: seq<word32>,
    k: seq<Constant>,
    upvalues: seq<Upvaldesc>,
    p: seq<Proto>,
    lineinfo: seq<int32>,
    locvars: seq<LocVar>)

  predicate NameOk(name: Option<LString>) {
    name.Some? ==> StringOk(name.value)
  }

  /** What the program that made the prototype keeps: sizes are ints, strings are
      short when they can be. */
  predicate ProtoOk(f: Proto)
    decreases f
  {
    && NameOk(f.source)
    && |f.code| <= MAX_INT && |f.k| <= MAX_INT && |f.upvalues| <= MAX_INT && |f.p| <= MAX_INT
    && |f.lineinfo| <= MAX_INT && |f.locvars| <= MAX_INT
    && (forall i :: 0 <= i < |f.k| ==> f.k[i].KStr? ==> StringOk(f.k[i].t))
    && (forall i :: 0 <= i < |f.upvalues| ==> NameOk(f.upvalues[i].name))
    && (forall i :: 0 <= i < |f.locvars| ==> NameOk(f.locvars[i].varname))
    && (forall i :: 0 <= i < |f.p| ==> ProtoOk(f.p[i]))
  }

  // ---- Numbers ----

  /** The low `n` bytes of a number, the lowest first. */
  function Little(x: nat, n: nat): (b: Bytes)
    ensures |b| == n
  {
    if n == 0 then [] else [(x % 256) as byte] + Little(x / 256, n - 1)
  }

  function UnLittle(b: Bytes): nat {
    if b == [] then 0 else b[0] as nat + 256 * UnLittle(b[1..])
  }

  lemma {:induction false} LittleRound(x: nat, n: nat)
    requires x < Power(256, n)
    ensures UnLittle(Little(x, n)) == x
  {
    if n > 0 {
      assert Little(x, n)[1..] == Little(x / 256, n - 1);
      LittleRound(x / 256, n - 1);
    }
  }

  lemma PowersOf256()
    ensures Power(256, 4) == 0x1_0000_0000 && Power(256, 8) == 0x1_0000_0000_0000_0000
  {
    assert Power(256, 2) == 65536;
    assert Power(256, 6) == 0x1_0000_0000_0000;
  }

  lemma {:induction false} LittleBack(b: Bytes)
    ensures Little(UnLittle(b), |b|) == b
  {
    if b != [] {
      LittleBack(b[1..]);
      LowByte(b[0], UnLittle(b[1..]));
      assert b == [b[0]] + b[1..];
    }
  }

  lemma LowByte(b: byte, x: nat)
    ensures (b as nat + 256 * x) % 256 == b as nat && (b as nat + 256 * x) / 256 == x
  {
  }

  function EncInt(x: int32): Bytes {
    Little(x % 0x1_0000_0000, 4)
  }

  function DecInt(b: Bytes): int32
    requires |b| == 4
  {
    Signed32(UnLittle(b))
  }

  function Signed32(x: nat): int32 {
    var y := x % 0x1_0000_0000;
    if y < 0x8000_0000 then y else y - 0x1_0000_0000
  }

  lemma IntRound(x: int32)
    ensures DecInt(EncInt(x)) == x
  {
    var y: nat := x % 0x1_0000_0000;
    assert Signed32(y) == x;
    Round32(y);
  }

  lemma Round32(y: nat)
    requires y < 0x1_0000_0000
    ensures UnLittle(Little(y, 4)) == y
  {
    PowersOf256();
    LittleRound(y, 4);
  }

  lemma Round64(y: nat)
    requires y < 0x1_0000_0000_0000_0000
    ensures UnLittle(Little(y, 8)) == y
  {
    PowersOf256();
    LittleRound(y, 8);
  }

  function EncInteger(x: int64): Bytes {
    Little(x % 0x1_0000_0000_0000_0000, 8)
  }

  function DecInteger(b: Bytes): int64
    requires |b| == 8
  {
    Signed64(UnLittle(b))
  }

  function Signed64(x: nat): int64 {
    var y := x % 0x1_0000_0000_0000_0000;
    if y <= MAX_INTEGER then y else y - 0x1_0000_0000_0000_0000
  }

  lemma IntegerRound(x: int64)
    ensures DecInteger(EncInteger(x)) == x
  {
    var y: nat := x % 0x1_0000_0000_0000_0000;
    assert Signed64(y) == x;
    Round64(y);
  }

  // ---- Parts of a prototype ----

  function EncString(t: Option<LString>): Bytes {
    match t
    case None => [0]
    case Some(s) => StringHead(|s.s| + 1) + s.s
  }

  function StringHead(size: nat): Bytes {
    if size < 0xFF then [size as byte] else [0xFF] + Little(size, 8)
  }

  /** One after the other. */
  function Flat(parts: seq<Bytes>): Bytes {
    if parts == [] then [] else Flat(parts[..|parts| - 1]) + parts[|parts| - 1]
  }

  lemma FlatStep(head: Bytes, parts: seq<Bytes>, i: nat)
    requires i < |parts|
    ensures head + Flat(parts[..i]) + parts[i] == head + Flat(parts[..i + 1])
  {
    assert parts[..i + 1][..i] == parts[..i];
    Assoc(head, Flat(parts[..i]), parts[i]);
  }

  lemma Assoc(a: Bytes, b: Bytes, c: Bytes)
    ensures a + b + c == a + (b + c)
  {
  }

  lemma {:induction false} FlatFirst(parts: seq<Bytes>)
    requires parts != []
    ensures Flat(parts) == parts[0] + Flat(parts[1..])
  {
    if |parts| > 1 {
      var last := |parts| - 1;
      FlatFirst(parts[..last]);
      assert parts[..last][1..] == parts[1..][..last - 1];
      Assoc(parts[0], Flat(parts[1..][..last - 1]), parts[last]);
    } else {
      assert parts[..0] == [] && parts[1..] == [];
    }
  }

  function Words(code: seq<word32>): seq<Bytes> {
    seq(|code|, i requires 0 <= i < |code| => Little(code[i], 4))
  }

  /** The type of the value in the low four bits, above them its variant: of numbers
      the integers, of strings the long ones. */
  function Tag(c: Constant): (b: byte)
    ensures b as nat % 16 == if c.KNil? then 0 else if c.KBool? then 1 else if c.KStr? then 4 else 3
    ensures b as nat / 16 == if c.KInt? || (c.KStr? && c.t.Long?) then 1 else 0
  {
    match c
    case KNil => 0
    case KBool(_) => 1
    case KFlt(_) => 3
    case KInt(_) => 19
    case KStr(Short(_)) => 4
    case KStr(Long(_)) => 20
  }

  function EncConstant(c: Constant): Bytes {
    match c
    case KNil => [Tag(c)]
    case KBool(b) => [Tag(c)] + [b]
    case KFlt(bits) => [Tag(c)] + Little(bits, 8)
    case KInt(i) => [Tag(c)] + EncInteger(i)
    case KStr(t) => [Tag(c)] + EncString(Some(t))
  }

  function Constants(k: seq<Constant>): seq<Bytes> {
    seq(|k|, i requires 0 <= i < |k| => EncConstant(k[i]))
  }

  function Upvalues(us: seq<Upvaldesc>): seq<Bytes> {
    seq(|us|, i requires 0 <= i < |us| => [us[i].instack, us[i].idx])
  }

  function Ints(l: seq<int32>): seq<Bytes> {
    seq(|l|, i requires 0 <= i < |l| => EncInt(l[i]))
  }

  function EncLocVar(v: LocVar): Bytes {
    EncString(v.varname) + EncInt(v.startpc) + EncInt(v.endpc)
  }

  function LocVars(vs: seq<LocVar>): seq<Bytes> {
    seq(|vs|, i requires 0 <= i < |vs| => EncLocVar(vs[i]))
  }

  function Names(us: seq<Upvaldesc>): seq<Bytes> {
    seq(|us|, i requires 0 <= i < |us| => EncString(us[i].name))
  }

  /** A vector: its size and its elements. */
  function EncVector(parts: seq<Bytes>): Bytes
    requires |parts| <= MAX_INT
  {
    EncInt(Size(|parts|)) + Flat(parts)
  }

  function Size(n: nat): int32
    requires n <= MAX_INT
  {
    n
  }

  /** Debug information, empty when it is stripped. */
  function EncDebug(f: Proto, strip: bool): Bytes
    requires ProtoOk(f)
  {
    var lineinfo, locvars, names := if strip then [] else f.lineinfo, if strip then [] else f.locvars,
                                    if strip then [] else f.upvalues;
    EncVector(Ints(lineinfo)) + EncVector(LocVars(locvars)) + EncVector(Names(names))
  }

  /** The source is left out when it is stripped or that of the parent. */
  function DumpedSource(f: Proto, psource: Option<LString>, strip: bool): Option<LString> {
    if strip || f.source == psource then None else f.source
  }

  function EncHead(f: Proto, psource: Option<LString>, strip: bool): Bytes {
    EncString(DumpedSource(f, psource, strip)) + EncInt(f.linedefined) + EncInt(f.lastlinedefined)
      + [f.numparams] + [f.is_vararg] + [f.maxstacksize]
  }

  function EncFunction(f: Proto, psource: Option<LString>, strip: bool): Bytes
    requires ProtoOk(f)
    decreases f, 1
  {
    EncHead(f, psource, strip) + EncVector(Words(f.code)) + EncVector(Constants(f.k)) + EncVector(Upvalues(f.upvalues))
      + EncVector(Protos(f, strip)) + EncDebug(f, strip)
  }

  function Protos(f: Proto, strip: bool): (parts: seq<Bytes>)
    requires ProtoOk(f)
    ensures |parts| == |f.p|
    decreases f, 0
  {
    seq(|f.p|, i requires 0 <= i < |f.p| => EncFunction(f.p[i], f.source, strip))
  }

  // ---- The whole chunk ----

  const SIGNATURE: Bytes := [0x1b, 0x4c, 0x75, 0x61]
  const LUAC_DATA: Bytes := [0x19, 0x93, 0x0d, 0x0a, 0x1a, 0x0a]
  const LUAC_VERSION: byte := 0x53
  const LUAC_FORMAT: byte := 0
  const LUAC_INT: int64 := 0x5678
  const LUAC_NUM: word64 := 0x4077_2800_0000_0000  // 370.5
  const SIZES: Bytes := [4, 8, 4, 8, 8]  // int, size_t, Instruction, lua_Integer, lua_Number

  function EncHeader(): (h: Bytes)
    ensures h != []
  {
    SIGNATURE + [LUAC_VERSION] + [LUAC_FORMAT] + LUAC_DATA + SIZES + EncInteger(LUAC_INT) + Little(LUAC_NUM, 8)
  }

  /** The header, byte by byte: the mark of a binary chunk, version 5.3, format 0, the
      bytes that a conversion of the file would damage, the five sizes, and the numbers
      0x5678 and 370.5, the lowest bytes first. */
  lemma HeaderBytes(i: int64, x: word64)
    requires i == LUAC_INT && x == LUAC_NUM
    ensures EncHeader() == FirstBytes() + EncInteger(i) + Little(x, 8)
    ensures FirstBytes() == [0x1b, 0x4c, 0x75, 0x61, 0x53, 0x00, 0x19, 0x93, 0x0d, 0x0a, 0x1a, 0x0a, 4, 8, 4, 8, 8]
    ensures EncInteger(i) == [0x78, 0x56, 0, 0, 0, 0, 0, 0] && Little(x, 8) == [0, 0, 0, 0, 0, 0x28, 0x77, 0x40]
  {
    StoredInteger(i);
    StoredNumber(x);
  }

  function FirstBytes(): Bytes {
    SIGNATURE + [LUAC_VERSION] + [LUAC_FORMAT] + LUAC_DATA + SIZES
  }

  lemma StoredInteger(i: int64)
    requires i == LUAC_INT
    ensures EncInteger(i) == [0x78, 0x56, 0, 0, 0, 0, 0, 0]
  {
    EightBytes(i, [0x78, 0x56, 0, 0, 0, 0, 0, 0]);
  }

  lemma StoredNumber(x: word64)
    requires x == LUAC_NUM
    ensures Little(x, 8) == [0, 0, 0, 0, 0, 0x28, 0x77, 0x40]
  {
    EightBytes(x, [0, 0, 0, 0, 0, 0x28, 0x77, 0x40]);
  }

  lemma EightBytes(x: nat, b: Bytes)
    requires |b| == 8 && x == b[0] as nat + 0x100 * b[1] as nat + 0x1_0000 * b[2] as nat + 0x100_0000 * b[3] as nat +
                              0x1_0000_0000 * b[4] as nat + 0x100_0000_0000 * b[5] as nat +
                              0x1_0000_0000_0000 * b[6] as nat + 0x100_0000_0000_0000 * b[7] as nat
    ensures Little(x, 8) == b
  {
    FourBytes(b[4..]);
    FourBytes(b[..4]);
    UnLittleSplit(b[..4], b[4..]);
    assert b == b[..4] + b[4..];
    LittleBack(b);
  }

  lemma FourBytes(b: Bytes)
    requires |b| == 4
    ensures UnLittle(b) == b[0] as nat + 0x100 * b[1] as nat + 0x1_0000 * b[2] as nat + 0x100_0000 * b[3] as nat
  {
    assert b[1..][1..] == b[2..] && b[2..][1..] == b[3..] && b[3..][1..] == [];
    assert UnLittle(b[3..]) == b[3] as nat;
    assert UnLittle(b[2..]) == b[2] as nat + 256 * UnLittle(b[3..]);
    assert UnLittle(b[1..]) == b[1] as nat + 256 * UnLittle(b[2..]);
  }

  lemma UnLittleSplit(a: Bytes, b: Bytes)
    requires |a| == 4
    ensures UnLittle(a + b) == UnLittle(a) + 0x1_0000_0000 * UnLittle(b)
  {
    FourBytes(a);
    assert (a + b)[1..] == a[1..] + b && (a[1..] + b)[1..] == a[2..] + b;
    assert (a[2..] + b)[1..] == a[3..] + b && (a[3..] + b)[1..] == b;
    assert UnLittle(a[3..] + b) == a[3] as nat + 256 * UnLittle(b);
    assert UnLittle(a[2..] + b) == a[2] as nat + 256 * UnLittle(a[3..] + b);
    assert UnLittle(a[1..] + b) == a[1] as nat + 256 * UnLittle(a[2..] + b);
  }

  function EncChunk(f: Proto, strip: bool): Bytes
    requires ProtoOk(f) && |f.upvalues| < 256
  {
    EncHeader() + [|f.upvalues| as byte] + EncFunction(f, None, strip)
  }

  // ---- What comes back ----

  /** The prototype that loading a dump makes: `dsource` is the source of the parent
      when it was dumped, `lsource` that of the loaded parent. */
  function Reloaded(f: Proto, dsource: Option<LString>, lsource: Option<LString>, strip: bool): Proto
    decreases f
  {
    var dumped := DumpedSource(f, dsource, strip);
    var source := if dumped.None? then lsource else dumped;
    f.(source := source,
       upvalues := if strip then Unnamed(f.upvalues) else f.upvalues,
       lineinfo := if strip then [] else f.lineinfo,
       locvars := if strip then [] else f.locvars,
       p := seq(|f.p|, i requires 0 <= i < |f.p| => Reloaded(f.p[i], f.source, source, strip)))
  }

  function Unnamed(us: seq<Upvaldesc>): seq<Upvaldesc> {
    seq(|us|, i requires 0 <= i < |us| => us[i].(name := None))
  }

  /** A function without a source has a parent without one. */
  predicate SourcesOk(f: Proto, psource: Option<LString>)
    decreases f
  {
    (f.source.Some? || f.source == psource) && forall i :: 0 <= i < |f.p| ==> SourcesOk(f.p[i], f.source)
  }

  /** Without stripping the same prototype comes back, exactly if every function has
      a source unless its parent has none either. */
  lemma {:induction false} ReloadedIsSame(f: Proto, psource: Option<LString>)
    ensures Reloaded(f, psource, psource, false) == f <==> SourcesOk(f, psource)
    decreases f
  {
    var g := Reloaded(f, psource, psource, false);
    assert g.source == f.source <==> f.source.Some? || f.source == psource;
    if g.source == f.source {
      forall i | 0 <= i < |f.p| ensures g.p[i] == f.p[i] <==> SourcesOk(f.p[i], f.source) {
        ReloadedIsSame(f.p[i], f.source);
      }
      if SourcesOk(f, psource) { assert g.p == f.p; }
      if g == f { assert forall i :: 0 <= i < |f.p| ==> g.p[i] == f.p[i]; }
    }
  }

  /** What goes wrong otherwise: the source of the parent appears. The parser gives
      every function a source, so it does not make such prototypes. */
  lemma SourceAppears(f: Proto, c: Proto)
    requires f.p == [c] && f.source.Some? && c.source.None?
    ensures Reloaded(f, None, None, false).p[0].source == f.source && Reloaded(f, None, None, false) != f
  {
    assert Reloaded(f, None, None, false).p[0] == Reloaded(c, f.source, f.source, false);
  }

  /** Nor does the loader. */
  lemma {:induction false} LoadedSourcesOk(f: Proto, dsource: Option<LString>, lsource: Option<LString>, strip: bool)
    ensures SourcesOk(Reloaded(f, dsource, lsource, strip), lsource)
    decreases f
  {
    var g := Reloaded(f, dsource, lsource, strip);
    forall i | 0 <= i < |f.p| ensures SourcesOk(g.p[i], g.source) {
      LoadedSourcesOk(f.p[i], f.source, g.source, strip);
    }
  }

  /** Whatever has been loaded comes back the same from then on. */
  lemma LoadedComesBack(f: Proto, dsource: Option<LString>, lsource: Option<LString>, strip: bool)
    ensures var g := Reloaded(f, dsource, lsource, strip); Reloaded(g, lsource, lsource, false) == g
  {
    LoadedSourcesOk(f, dsource, lsource, strip);
    ReloadedIsSame(Reloaded(f, dsource, lsource, strip), lsource);
  }

  /** The prototype without debug information. */
  function Erased(f: Proto): Proto
    decreases f
  {
    f.(source := None, upvalues := Unnamed(f.upvalues), lineinfo := [], locvars := [],
       p := seq(|f.p|, i requires 0 <= i < |f.p| => Erased(f.p[i])))
  }

  /** With stripping it comes back without debug information. */
  lemma {:induction false} ReloadedIsErased(f: Proto, dsource: Option<LString>)
    ensures Reloaded(f, dsource, None, true) == Erased(f)
    decreases f
  {
    forall i | 0 <= i < |f.p| ensures Reloaded(f.p[i], f.source, None, true) == Erased(f.p[i]) {
      ReloadedIsErased(f.p[i], f.source);
    }
    assert Reloaded(f, dsource, None, true).p == Erased(f).p;
  }
}
