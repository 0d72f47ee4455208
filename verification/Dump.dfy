/** Saving precompiled chunks (src/ldump.c), to a writer that may fail. */
module Dump {
  import opened LuaValues
  import opened DumpFormat

  /** What the writer answers at its `n`th call. */
  type Writer = (nat, Bytes) -> int

  ghost predicate NeverFails(writer: Writer) {
    forall n, b :: writer(n, b) == 0
  }

  /** What the writer has been given, from `out0` on with status `st0` before, as
      dumping `enc` goes: everything if it never failed, else only the beginning. */
  ghost predicate Wrote(writer: Writer, out0: Bytes, st0: int, out: Bytes, st: int, enc: Bytes) {
    && (st0 == 0 && NeverFails(writer) ==> st == 0)
    && (st == 0 ==> st0 == 0 && out == out0 + enc)
    && (st0 != 0 ==> st == st0 && out == out0)
    && |out0| <= |out| <= |out0| + |enc| && out == (out0 + enc)[..|out|]
  }

  /** The writer has been called with these blocks, none of them empty, has failed at
      most in the last call, and its last answer is the status. */
  ghost predicate Answered(writer: Writer, blocks: seq<Bytes>, out: Bytes, st: int) {
    && Flat(blocks) == out && (forall k :: 0 <= k < |blocks| ==> blocks[k] != [])
    && (forall k :: 0 <= k < |blocks| - 1 ==> writer(k, blocks[k]) == 0)
    && st == if blocks == [] then 0 else writer(|blocks| - 1, blocks[|blocks| - 1])
  }

  lemma WroteTransitive(writer: Writer, out0: Bytes, st0: int, out1: Bytes, st1: int, out2: Bytes, st2: int,
                        enc1: Bytes, enc2: Bytes)
    requires Wrote(writer, out0, st0, out1, st1, enc1) && Wrote(writer, out1, st1, out2, st2, enc2)
    ensures Wrote(writer, out0, st0, out2, st2, enc1 + enc2)
  {
    assert out0 + (enc1 + enc2) == (out0 + enc1) + enc2;
    if st1 == 0 {
      assert out2 == (out1 + enc2)[..|out2|];
    } else {
      assert out2 == out1;
    }
  }

  lemma NestedOk(f: Proto, i: nat)
    requires ProtoOk(f) && i < |f.p|
    ensures ProtoOk(f.p[i])
  {
  }

  class DumpState {
    const strip: bool
    const writer: Writer
    var out: Bytes
    var status: int
    var calls: nat
    ghost var blocks: seq<Bytes>  // what the writer has been called with

    constructor (strip: bool, writer: Writer)
      ensures this.strip == strip && this.writer == writer && out == [] && status == 0 && blocks == []
      ensures Recorded()
    {
      this.strip, this.writer, out, status, calls, blocks := strip, writer, [], 0, 0, [];
    }

    ghost predicate Recorded()
      reads this
    {
      calls == |blocks| && Answered(writer, blocks, out, status)
    }

    /** DumpBlock */
    method DumpBlock(b: Bytes)
      modifies this
      ensures Wrote(writer, old(out), old(status), out, status, b)
      ensures old(Recorded()) ==> Recorded()
    {
      if status == 0 && |b| > 0 {
        out := out + b;
        status := writer(calls, b);
        calls := calls + 1;
        blocks := blocks + [b];
        assert blocks[..|blocks| - 1] == old(blocks);
      }
      assert out == (old(out) + b)[..|out|];
    }

    method DumpByte(x: byte)
      modifies this
      ensures Wrote(writer, old(out), old(status), out, status, [x])
      ensures old(Recorded()) ==> Recorded()
    {
      DumpBlock([x]);
    }

    method DumpInt(x: int32)
      modifies this
      ensures Wrote(writer, old(out), old(status), out, status, EncInt(x))
      ensures old(Recorded()) ==> Recorded()
    {
      DumpBlock(EncInt(x));
    }

    method DumpString(t: Option<LString>)
      modifies this
      ensures Wrote(writer, old(out), old(status), out, status, EncString(t))
      ensures old(Recorded()) ==> Recorded()
    {
      if t == None {
        DumpByte(0);
      } else {
        ghost var o, st := out, status;
        var size := |t.value.s| + 1;
        if size < 0xFF {
          DumpByte(size as byte);
        } else {
          DumpByte(0xFF);
          ghost var o1, st1 := out, status;
          DumpBlock(Little(size, 8));
          WroteTransitive(writer, o, st, o1, st1, out, status, [0xFF], Little(size, 8));
        }
        ghost var o2, st2 := out, status;
        DumpBlock(t.value.s);
        WroteTransitive(writer, o, st, o2, st2, out, status, StringHead(size), t.value.s);
      }
    }

    /** A vector that is written as one block: its size and its elements. */
    method DumpVector(ghost parts: seq<Bytes>, n: nat, block: Bytes)
      requires |parts| == n <= MAX_INT && block == Flat(parts)
      modifies this
      ensures Wrote(writer, old(out), old(status), out, status, EncVector(parts))
      ensures old(Recorded()) ==> Recorded()
    {
      ghost var o, st := out, status;
      DumpInt(Size(n));
      ghost var o1, st1 := out, status;
      DumpBlock(block);
      WroteTransitive(writer, o, st, o1, st1, out, status, EncInt(Size(n)), block);
    }

    method DumpCode(code: seq<word32>)
      requires |code| <= MAX_INT
      modifies this
      ensures Wrote(writer, old(out), old(status), out, status, EncVector(Words(code)))
      ensures old(Recorded()) ==> Recorded()
    {
      DumpVector(Words(code), |code|, Flat(Words(code)));
    }

    method DumpConstant(c: Constant)
      modifies this
      ensures Wrote(writer, old(out), old(status), out, status, EncConstant(c))
      ensures old(Recorded()) ==> Recorded()
    {
      ghost var o, st := out, status;
      DumpByte(Tag(c));
      ghost var o1, st1 := out, status;
      match c {
        case KNil =>
        case KBool(b) =>
          DumpByte(b);
          WroteTransitive(writer, o, st, o1, st1, out, status, [Tag(c)], [b]);
        case KFlt(bits) =>
          DumpBlock(Little(bits, 8));
          WroteTransitive(writer, o, st, o1, st1, out, status, [Tag(c)], Little(bits, 8));
        case KInt(i) =>
          DumpBlock(EncInteger(i));
          WroteTransitive(writer, o, st, o1, st1, out, status, [Tag(c)], EncInteger(i));
        case KStr(t) =>
          DumpString(Some(t));
          WroteTransitive(writer, o, st, o1, st1, out, status, [Tag(c)], EncString(Some(t)));
      }
    }

    method DumpConstants(k: seq<Constant>)
      requires |k| <= MAX_INT
      modifies this
      ensures Wrote(writer, old(out), old(status), out, status, EncVector(Constants(k)))
      ensures old(Recorded()) ==> Recorded()
    {
      ghost var o, st, parts := out, status, Constants(k);
      ghost var head := EncInt(Size(|parts|));
      DumpInt(Size(|k|));
      assert head + Flat(parts[..0]) == head;
      for i := 0 to |k|
        invariant old(Recorded()) ==> Recorded()
        invariant Wrote(writer, o, st, out, status, head + Flat(parts[..i]))
      {
        ghost var o1, st1 := out, status;
        DumpConstant(k[i]);
        WroteTransitive(writer, o, st, o1, st1, out, status, head + Flat(parts[..i]), parts[i]);
        FlatStep(head, parts, i);
      }
      assert parts[..|parts|] == parts;
    }

    method DumpUpvalues(us: seq<Upvaldesc>)
      requires |us| <= MAX_INT
      modifies this
      ensures Wrote(writer, old(out), old(status), out, status, EncVector(Upvalues(us)))
      ensures old(Recorded()) ==> Recorded()
    {
      ghost var o, st, parts := out, status, Upvalues(us);
      ghost var head := EncInt(Size(|parts|));
      DumpInt(Size(|us|));
      assert head + Flat(parts[..0]) == head;
      for i := 0 to |us|
        invariant old(Recorded()) ==> Recorded()
        invariant Wrote(writer, o, st, out, status, head + Flat(parts[..i]))
      {
        ghost var o1, st1 := out, status;
        DumpByte(us[i].instack);
        ghost var o2, st2 := out, status;
        DumpByte(us[i].idx);
        WroteTransitive(writer, o1, st1, o2, st2, out, status, [us[i].instack], [us[i].idx]);
        WroteTransitive(writer, o, st, o1, st1, out, status, head + Flat(parts[..i]), parts[i]);
        FlatStep(head, parts, i);
      }
      assert parts[..|parts|] == parts;
    }

    method DumpProtos(f: Proto)
      requires ProtoOk(f)
      modifies this
      ensures Wrote(writer, old(out), old(status), out, status, EncVector(Protos(f, strip)))
      ensures old(Recorded()) ==> Recorded()
      decreases f, 0, 1
    {
      ghost var o, st, parts := out, status, Protos(f, strip);
      ghost var head := EncInt(Size(|parts|));
      DumpInt(Size(|f.p|));
      assert head + Flat(parts[..0]) == head;
      for i := 0 to |f.p|
        invariant old(Recorded()) ==> Recorded()
        invariant Wrote(writer, o, st, out, status, head + Flat(parts[..i]))
      {
        ghost var o1, st1 := out, status;
        DumpNested(f, i);
        WroteTransitive(writer, o, st, o1, st1, out, status, head + Flat(parts[..i]), parts[i]);
        FlatStep(head, parts, i);
      }
      assert parts[..|parts|] == parts;
    }

    method DumpNested(f: Proto, i: nat)
      requires ProtoOk(f) && i < |f.p|
      modifies this
      ensures Wrote(writer, old(out), old(status), out, status, Protos(f, strip)[i])
      ensures old(Recorded()) ==> Recorded()
      decreases f, 0, 0
    {
      NestedOk(f, i);
      DumpFunction(f.p[i], f.source);
    }

    method DumpLocVar(v: LocVar)
      modifies this
      ensures Wrote(writer, old(out), old(status), out, status, EncLocVar(v))
      ensures old(Recorded()) ==> Recorded()
    {
      ghost var o, st := out, status;
      DumpString(v.varname);
      ghost var o1, st1 := out, status;
      DumpInt(v.startpc);
      ghost var o2, st2 := out, status;
      WroteTransitive(writer, o, st, o1, st1, o2, st2, EncString(v.varname), EncInt(v.startpc));
      DumpInt(v.endpc);
      WroteTransitive(writer, o, st, o2, st2, out, status, EncString(v.varname) + EncInt(v.startpc), EncInt(v.endpc));
    }

    method DumpLocVars(vs: seq<LocVar>)
      requires |vs| <= MAX_INT
      modifies this
      ensures Wrote(writer, old(out), old(status), out, status, EncVector(LocVars(vs)))
      ensures old(Recorded()) ==> Recorded()
    {
      ghost var o, st, parts := out, status, LocVars(vs);
      ghost var head := EncInt(Size(|parts|));
      DumpInt(Size(|vs|));
      assert head + Flat(parts[..0]) == head;
      for i := 0 to |vs|
        invariant old(Recorded()) ==> Recorded()
        invariant Wrote(writer, o, st, out, status, head + Flat(parts[..i]))
      {
        ghost var o1, st1 := out, status;
        DumpLocVar(vs[i]);
        WroteTransitive(writer, o, st, o1, st1, out, status, head + Flat(parts[..i]), parts[i]);
        FlatStep(head, parts, i);
      }
      assert parts[..|parts|] == parts;
    }

    method DumpNames(us: seq<Upvaldesc>)
      requires |us| <= MAX_INT
      modifies this
      ensures Wrote(writer, old(out), old(status), out, status, EncVector(Names(us)))
      ensures old(Recorded()) ==> Recorded()
    {
      ghost var o, st, parts := out, status, Names(us);
      ghost var head := EncInt(Size(|parts|));
      DumpInt(Size(|us|));
      assert head + Flat(parts[..0]) == head;
      for i := 0 to |us|
        invariant old(Recorded()) ==> Recorded()
        invariant Wrote(writer, o, st, out, status, head + Flat(parts[..i]))
      {
        ghost var o1, st1 := out, status;
        DumpString(us[i].name);
        WroteTransitive(writer, o, st, o1, st1, out, status, head + Flat(parts[..i]), parts[i]);
        FlatStep(head, parts, i);
      }
      assert parts[..|parts|] == parts;
    }

    method DumpDebug(f: Proto)
      requires ProtoOk(f)
      modifies this
      ensures Wrote(writer, old(out), old(status), out, status, EncDebug(f, strip))
      ensures old(Recorded()) ==> Recorded()
    {
      ghost var o, st := out, status;
      var lineinfo := if strip then [] else f.lineinfo;
      var locvars := if strip then [] else f.locvars;
      var names := if strip then [] else f.upvalues;
      DumpVector(Ints(lineinfo), |lineinfo|, Flat(Ints(lineinfo)));
      ghost var o1, st1, e1 := out, status, EncVector(Ints(lineinfo));
      DumpLocVars(locvars);
      ghost var o2, st2, e2 := out, status, EncVector(LocVars(locvars));
      WroteTransitive(writer, o, st, o1, st1, o2, st2, e1, e2);
      DumpNames(names);
      WroteTransitive(writer, o, st, o2, st2, out, status, e1 + e2, EncVector(Names(names)));
    }

    /** What DumpFunction writes before the code. */
    method DumpHead(f: Proto, psource: Option<LString>)
      modifies this
      ensures Wrote(writer, old(out), old(status), out, status, EncHead(f, psource, strip))
      ensures old(Recorded()) ==> Recorded()
    {
      ghost var o, st := out, status;
      if strip || f.source == psource {
        DumpString(None);
      } else {
        DumpString(f.source);
      }
      ghost var o1, st1, e1 := out, status, EncString(DumpedSource(f, psource, strip));
      DumpInt(f.linedefined);
      ghost var o2, st2, e2 := out, status, e1 + EncInt(f.linedefined);
      WroteTransitive(writer, o, st, o1, st1, o2, st2, e1, EncInt(f.linedefined));
      DumpInt(f.lastlinedefined);
      ghost var o3, st3, e3 := out, status, e2 + EncInt(f.lastlinedefined);
      WroteTransitive(writer, o, st, o2, st2, o3, st3, e2, EncInt(f.lastlinedefined));
      DumpByte(f.numparams);
      ghost var o4, st4 := out, status;
      WroteTransitive(writer, o, st, o3, st3, o4, st4, e3, [f.numparams]);
      DumpByte(f.is_vararg);
      ghost var o5, st5 := out, status;
      WroteTransitive(writer, o, st, o4, st4, o5, st5, e3 + [f.numparams], [f.is_vararg]);
      DumpByte(f.maxstacksize);
      WroteTransitive(writer, o, st, o5, st5, out, status, e3 + [f.numparams] + [f.is_vararg], [f.maxstacksize]);
    }

    method DumpFunction(f: Proto, psource: Option<LString>)
      requires ProtoOk(f)
      modifies this
      ensures Wrote(writer, old(out), old(status), out, status, EncFunction(f, psource, strip))
      ensures old(Recorded()) ==> Recorded()
      decreases f, 1, 0
    {
      ghost var o, st := out, status;
      DumpHead(f, psource);
      ghost var o1, st1, e1 := out, status, EncHead(f, psource, strip);
      DumpCode(f.code);
      ghost var o2, st2, e2 := out, status, EncVector(Words(f.code));
      WroteTransitive(writer, o, st, o1, st1, o2, st2, e1, e2);
      DumpConstants(f.k);
      ghost var o3, st3, e3 := out, status, EncVector(Constants(f.k));
      WroteTransitive(writer, o, st, o2, st2, o3, st3, e1 + e2, e3);
      DumpUpvalues(f.upvalues);
      ghost var o4, st4, e4 := out, status, EncVector(Upvalues(f.upvalues));
      WroteTransitive(writer, o, st, o3, st3, o4, st4, e1 + e2 + e3, e4);
      DumpProtos(f);
      ghost var o5, st5, e5 := out, status, EncVector(Protos(f, strip));
      WroteTransitive(writer, o, st, o4, st4, o5, st5, e1 + e2 + e3 + e4, e5);
      DumpDebug(f);
      WroteTransitive(writer, o, st, o5, st5, out, status, e1 + e2 + e3 + e4 + e5, EncDebug(f, strip));
    }

    method DumpHeader()
      modifies this
      ensures Wrote(writer, old(out), old(status), out, status, EncHeader())
      ensures old(Recorded()) ==> Recorded()
    {
      ghost var o, st := out, status;
      DumpBlock(SIGNATURE);
      ghost var o1, st1 := out, status;
      DumpByte(LUAC_VERSION);
      ghost var o2, st2, e2 := out, status, SIGNATURE + [LUAC_VERSION];
      WroteTransitive(writer, o, st, o1, st1, o2, st2, SIGNATURE, [LUAC_VERSION]);
      DumpByte(LUAC_FORMAT);
      ghost var o3, st3, e3 := out, status, e2 + [LUAC_FORMAT];
      WroteTransitive(writer, o, st, o2, st2, o3, st3, e2, [LUAC_FORMAT]);
      DumpBlock(LUAC_DATA);
      ghost var o4, st4, e4 := out, status, e3 + LUAC_DATA;
      WroteTransitive(writer, o, st, o3, st3, o4, st4, e3, LUAC_DATA);
      DumpBlock(SIZES);
      ghost var o5, st5, e5 := out, status, e4 + SIZES;
      WroteTransitive(writer, o, st, o4, st4, o5, st5, e4, SIZES);
      DumpBlock(EncInteger(LUAC_INT));
      ghost var o6, st6, e6 := out, status, e5 + EncInteger(LUAC_INT);
      WroteTransitive(writer, o, st, o5, st5, o6, st6, e5, EncInteger(LUAC_INT));
      DumpBlock(Little(LUAC_NUM, 8));
      WroteTransitive(writer, o, st, o6, st6, out, status, e6, Little(LUAC_NUM, 8));
    }

    method DumpAll(f: Proto)
      requires ProtoOk(f) && |f.upvalues| < 256
      modifies this
      ensures Wrote(writer, old(out), old(status), out, status, EncChunk(f, strip))
      ensures old(Recorded()) ==> Recorded()
    {
      ghost var o, st := out, status;
      DumpHeader();
      ghost var o1, st1, e1 := out, status, EncHeader();
      var n := |f.upvalues| as byte;
      DumpByte(n);
      ghost var o2, st2 := out, status;
      WroteTransitive(writer, o, st, o1, st1, o2, st2, e1, [n]);
      DumpFunction(f, None);
      WroteTransitive(writer, o, st, o2, st2, out, status, e1 + [n], EncFunction(f, None, strip));
    }
  }

  /** luaU_dump: status 0 means that the writer has the whole chunk; whatever the
      writer answers, it never gets anything else. It is called with one block after
      the other until it fails, and its last answer is the status. */
  method DumpChunk(f: Proto, strip: bool, writer: Writer) returns (status: int, out: Bytes, ghost blocks: seq<Bytes>)
    requires ProtoOk(f) && |f.upvalues| < 256
    ensures status == 0 ==> out == EncChunk(f, strip)
    ensures out <= EncChunk(f, strip)
    ensures NeverFails(writer) ==> status == 0
    ensures blocks != [] && Flat(blocks) == out && status == writer(|blocks| - 1, blocks[|blocks| - 1])
    ensures forall k :: 0 <= k < |blocks| - 1 ==> writer(k, blocks[k]) == 0
  {
    var D := new DumpState(strip, writer);
    D.DumpAll(f);
    status, out, blocks := D.status, D.out, D.blocks;
    ghost var enc := EncChunk(f, strip);
    assert [] + enc == enc;
  }
}
