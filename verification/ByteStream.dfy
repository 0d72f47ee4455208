/** Buffered input (src/lzio.c): the reader hands over pieces of any size. */
module ByteStream {
  import opened LuaValues
  import opened DumpFormat

  /** What the reader will still deliver: an empty piece, or none, is the end. */
  function Joined(pieces: seq<Bytes>): Bytes {
    if pieces == [] || pieces[0] == [] then [] else pieces[0] + Joined(pieces[1..])
  }

  lemma Moved(b: Bytes, p: Bytes, rest: Bytes, m: nat)
    requires m <= |p|
    ensures (b + p[..m]) + (p[m..] + rest) == b + (p + rest)
  {
    assert p == p[..m] + p[m..];
  }

  lemma Front(a: Bytes, b: Bytes, n: nat)
    requires |a| == n
    ensures (a + b)[..n] == a && (a + b)[n..] == b
  {
  }

  class ZIO {
    var p: Bytes  // unread part of the current piece
    var pieces: seq<Bytes>

    constructor (pieces: seq<Bytes>)
      ensures Contents() == Joined(pieces)
    {
      p, this.pieces := [], pieces;
    }

    /** All that can still be read. */
    function Contents(): Bytes
      reads this
    {
      p + Joined(pieces)
    }

    /** luaZ_fill, called when the buffer is empty: the next byte, or the end. */
    method Fill() returns (c: Option<byte>)
      requires p == []
      modifies this
      ensures if old(Contents()) == [] then c == None && Contents() == []
              else c == Some(old(Contents()[0])) && Contents() == old(Contents()[1..])
      ensures c.Some? ==> |pieces| < |old(pieces)| && old(pieces[0]) == [c.value] + p && pieces == old(pieces[1..])
    {
      if pieces == [] {
        return None;
      }
      var buff := pieces[0];
      if buff == [] {
        return None;
      }
      pieces := pieces[1..];
      p := buff[1..];
      c := Some(buff[0]);
    }

    /** zgetc */
    method GetChar() returns (c: Option<byte>)
      modifies this
      ensures if old(Contents()) == [] then c == None && Contents() == []
              else c == Some(old(Contents()[0])) && Contents() == old(Contents()[1..])
    {
      if p != [] {
        c := Some(p[0]);
        p := p[1..];
      } else {
        c := Fill();
      }
    }

    /** luaZ_read: the next `n` bytes, wherever the pieces end; `missing` if there are
        not that many. */
    method Read(n: nat) returns (b: Bytes, missing: nat)
      modifies this
      ensures if n <= |old(Contents())|
              then missing == 0 && b == old(Contents())[..n] && Contents() == old(Contents())[n..]
              else missing == n - |old(Contents())| && b == old(Contents()) && Contents() == []
    {
      ghost var all := Contents();
      b := [];
      var left: nat := n;
      while left > 0
        invariant b + Contents() == all && |b| + left == n
        decreases left
      {
        if p == [] {
          var c := Fill();
          if c.None? {
            assert b == all;
            return b, left;
          }
          p := [c.value] + p;
        }
        var m := if left <= |p| then left else |p|;
        Moved(b, p, Joined(pieces), m);
        b := b + p[..m];
        p := p[m..];
        left := left - m;
      }
      Front(b, Contents(), n);
      missing := 0;
    }
  }
}
