/** UTF-8 (src/lobject.c, src/lutf8lib.c). Bit operations are written as arithmetic:
    the parts that are put together never overlap. */
module Utf8 {
  import opened LuaValues
  import opened DumpFormat
  import opened Powers

  const MAXUNICODE: nat := 0x10FFFF
  const UTF8BUFFSZ: nat := 8

  type Code = x: nat | x <= MAXUNICODE

  /** The shortest form of a code point (section 3 of RFC 3629, surrogates included). */
  function Form(x: Code): (b: Bytes)
    ensures 1 <= |b| <= 4
  {
    if x < 0x80 then [x as byte]
    else if x < 0x800 then [(0xC0 + x / 0x40) as byte, Cont(x)]
    else if x < 0x1_0000 then [(0xE0 + x / 0x40 / 0x40) as byte, Cont(x / 0x40), Cont(x)]
    else [(0xF0 + x / 0x40 / 0x40 / 0x40) as byte, Cont(x / 0x40 / 0x40), Cont(x / 0x40), Cont(x)]
  }

  function Cont(x: nat): byte {
    (0x80 + x % 0x40) as byte
  }

  predicate IsCont(b: byte) {
    0x80 <= b < 0xC0
  }

  /** The least first byte with `k` continuation bytes to follow. */
  function Lead(k: nat): nat {
    if k == 0 then 0x80 else if k == 1 then 0xC0 else if k == 2 then 0xE0 else if k == 3 then 0xF0
    else if k == 4 then 0xF8 else if k == 5 then 0xFC else if k == 6 then 0xFE else if k == 7 then 0xFF else 0x100
  }

  /** The bits of continuation bytes. */
  function Bits(b: Bytes): nat {
    if b == [] then 0 else Bits(b[..|b| - 1]) * 0x40 + b[|b| - 1] as nat % 0x40
  }

  /** A first byte and the continuation bytes that it asks for. */
  predicate Shaped(b: Bytes) {
    && 2 <= |b| <= 4 && Lead(|b| - 1) <= b[0] as nat < Lead(|b|)
    && forall i :: 1 <= i < |b| ==> IsCont(b[i])
  }

  function Val(b: Bytes): nat
    requires Shaped(b)
  {
    (b[0] as nat - Lead(|b| - 1)) * Power(0x40, |b| - 1) + Bits(b[1..])
  }

  function Limit(count: nat): nat {
    if count == 0 then 0xFF else if count == 1 then 0x7F else if count == 2 then 0x7FF else 0xFFFF
  }

  lemma BitsStep(b: Bytes, x: byte)
    ensures Bits(b + [x]) == Bits(b) * 0x40 + x as nat % 0x40
  {
    assert (b + [x])[..|b|] == b;
  }

  lemma Unfold2(b: Bytes)
    requires Shaped(b) && |b| == 2
    ensures Val(b) == (b[0] as nat - 0xC0) * 0x40 + b[1] as nat % 0x40
  {
    BitsStep([], b[1]);
    assert b[1..] == [] + [b[1]];
  }

  lemma Unfold3(b: Bytes)
    requires Shaped(b) && |b| == 3
    ensures Val(b) == (b[0] as nat - 0xE0) * 0x1000 + b[1] as nat % 0x40 * 0x40 + b[2] as nat % 0x40
  {
    BitsStep([], b[1]);
    BitsStep([b[1]], b[2]);
    assert b[1..] == [b[1]] + [b[2]] && [] + [b[1]] == [b[1]];
    assert Power(0x40, 2) == 0x1000;
  }

  lemma Unfold4(b: Bytes)
    requires Shaped(b) && |b| == 4
    ensures Val(b) == (b[0] as nat - 0xF0) * 0x4_0000 + b[1] as nat % 0x40 * 0x1000
                      + b[2] as nat % 0x40 * 0x40 + b[3] as nat % 0x40
  {
    BitsStep([], b[1]);
    BitsStep([b[1]], b[2]);
    BitsStep([b[1], b[2]], b[3]);
    assert b[1..] == [b[1], b[2]] + [b[3]] && [b[1]] + [b[2]] == [b[1], b[2]] && [] + [b[1]] == [b[1]];
    assert Power(0x40, 3) == 0x4_0000;
  }

  lemma Digits(a: nat, b: nat, c: nat, d: nat)
    requires b < 0x40 && c < 0x40 && d < 0x40
    ensures var x := ((a * 0x40 + b) * 0x40 + c) * 0x40 + d;
            && x / 0x40 == (a * 0x40 + b) * 0x40 + c && x % 0x40 == d
            && x / 0x40 / 0x40 == a * 0x40 + b && x / 0x40 % 0x40 == c
            && x / 0x40 / 0x40 / 0x40 == a && x / 0x40 / 0x40 % 0x40 == b
  {
    Quotient(a * 0x40 + b, c);
    Quotient((a * 0x40 + b) * 0x40 + c, d);
    Quotient(a, b);
  }

  lemma Quotient(q: nat, r: nat)
    requires r < 0x40
    ensures (q * 0x40 + r) / 0x40 == q && (q * 0x40 + r) % 0x40 == r
  {
  }

  /** What a form of several bytes looks like. */
  lemma FormShape(x: Code)
    requires x >= 0x80
    ensures Shaped(Form(x)) && Val(Form(x)) == x > Limit(|Form(x)| - 1)
  {
    if x < 0x800 {
      Unfold2(Form(x));
    } else if x < 0x1_0000 {
      Unfold3(Form(x));
    } else {
      FormShape4(x);
    }
  }

  lemma FormShape4(x: Code)
    requires x > 0xFFFF
    ensures Shaped(Form(x)) && Val(Form(x)) == x
  {
    Unfold4(Form(x));
    ContBits(x);
    ContBits(x / 0x40);
    ContBits(x / 0x40 / 0x40);
    FourDigits(x);
  }

  lemma ContBits(x: nat)
    ensures Cont(x) as nat % 0x40 == x % 0x40
  {
  }

  lemma FourDigits(x: nat)
    ensures x == x / 0x40 / 0x40 / 0x40 * 0x4_0000 + x / 0x40 / 0x40 % 0x40 * 0x1000 + x / 0x40 % 0x40 * 0x40 + x % 0x40
  {
  }

  /** What looks like a form is one, unless it is too long or out of range. */
  lemma ShapeForm(b: Bytes)
    requires Shaped(b) && Limit(|b| - 1) < Val(b) <= MAXUNICODE
    ensures Form(Val(b)) == b
  {
    if |b| == 2 {
      Unfold2(b);
      Quotient(b[0] as nat - 0xC0, b[1] as nat % 0x40);
    } else if |b| == 3 {
      ShapeForm3(b);
    } else {
      ShapeForm4(b);
    }
  }

  lemma ShapeForm3(b: Bytes)
    requires Shaped(b) && |b| == 3 && 0x7FF < Val(b)
    ensures Val(b) <= 0xFFFF && Form(Val(b)) == b
  {
    var p, q, r := b[0] as nat - 0xE0, b[1] as nat % 0x40, b[2] as nat % 0x40;
    Unfold3(b);
    Digits(0, p, q, r);
    assert Cont(Val(b)) == b[2] && Cont(Val(b) / 0x40) == b[1];
  }

  lemma ShapeForm4(b: Bytes)
    requires Shaped(b) && |b| == 4 && 0xFFFF < Val(b) <= MAXUNICODE
    ensures Form(Val(b)) == b
  {
    var o, p, q, r := b[0] as nat - 0xF0, b[1] as nat % 0x40, b[2] as nat % 0x40, b[3] as nat % 0x40;
    Unfold4(b);
    Digits(o, p, q, r);
    assert Cont(Val(b)) == b[3] && Cont(Val(b) / 0x40) == b[2] && Cont(Val(b) / 0x40 / 0x40) == b[1];
  }

  /** luaO_utf8esc: the form is at the end of the buffer. */
  method Utf8Esc(buff: array<byte>, x0: Code) returns (n: nat)
    requires buff.Length == UTF8BUFFSZ
    modifies buff
    ensures 1 <= n <= 4 && buff[UTF8BUFFSZ - n..] == Form(x0)
    ensures forall i :: 0 <= i < UTF8BUFFSZ - n ==> buff[i] == old(buff[i])
  {
    var x: nat := x0;
    n := 1;
    if x < 0x80 {
      buff[UTF8BUFFSZ - 1] := x as byte;
    } else {
      var mfb := 0x3f;
      while true
        invariant 1 <= n <= 3 && mfb == (if n == 1 then 0x3f else if n == 2 then 0x1f else 0xf)
        invariant x == (if n == 1 then x0 else if n == 2 then x0 / 0x40 else x0 / 0x40 / 0x40)
        invariant x0 >= (if n == 1 then 0x80 else if n == 2 then 0x800 else 0x1_0000)
        invariant n > 1 ==> buff[7] == Cont(x0)
        invariant n > 2 ==> buff[6] == Cont(x0 / 0x40)
        invariant forall i :: 0 <= i <= UTF8BUFFSZ - n ==> buff[i] == old(buff[i])
        decreases x
      {
        buff[UTF8BUFFSZ - n] := (0x80 + x % 0x40) as byte;
        n := n + 1;
        x := x / 0x40;
        mfb := mfb / 2;
        if x <= mfb {
          break;
        }
      }
      buff[UTF8BUFFSZ - n] := ((0xFF - mfb) * 2 % 0x100 + x) as byte;
    }
  }

  /** No form starts here. */
  ghost predicate NoForm(s: Bytes, p: nat)
    requires p <= |s|
  {
    forall x: Code {:trigger Form(x)} :: !(Form(x) <= s[p..])
  }

  /** The byte that C finds there: the string ends with a zero. */
  function At(s: Bytes, i: nat): byte {
    if i < |s| then s[i] else 0
  }

  lemma BitTest(c0: nat, count: nat)
    requires count <= 7 && Lead(count) <= c0 < 0x100
    ensures c0 * Pow2(count) / 0x40 % 2 == 1 <==> c0 >= Lead(count + 1)
  {
    assert Pow2(3) == 8 && Pow2(5) == 32;
  }

  /** The bits of the first byte, put above those of the others. */
  lemma FirstBits(c0: nat, count: nat)
    requires count <= 3 && Lead(count) <= c0 < Lead(count + 1)
    ensures c0 * Pow2(count) % 0x80 * Power(0x20, count) == (c0 - Lead(count)) * Power(0x40, count)
  {
    PowersUpTo3();
    if count == 0 {
      assert c0 % 0x80 == c0 - 0x80;
    } else if count == 1 {
      assert c0 * 2 % 0x80 == c0 * 2 - 0x180;
    } else if count == 2 {
      assert c0 * 4 % 0x80 == c0 * 4 - 0x380;
    } else {
      assert c0 * 8 % 0x80 == c0 * 8 - 0x780;
    }
  }

  lemma PowersUpTo3()
    ensures Pow2(0) == 1 && Pow2(1) == 2 && Pow2(2) == 4 && Pow2(3) == 8
    ensures Power(0x20, 0) == 1 && Power(0x20, 1) == 0x20 && Power(0x20, 2) == 0x400 && Power(0x20, 3) == 0x8000
    ensures Power(0x40, 0) == 1 && Power(0x40, 1) == 0x40 && Power(0x40, 2) == 0x1000 && Power(0x40, 3) == 0x4_0000
  {
  }

  lemma FormAt(s: Bytes, i: nat, x: Code)
    requires i < |s| && Form(x) <= s[i..]
    ensures |Form(x)| == 1 ==> s[i] < 0x80
    ensures |Form(x)| > 1 ==> var b := s[i..i + |Form(x)|]; Shaped(b) && Val(b) == x > Limit(|b| - 1)
    ensures |Form(x)| > 1 ==> Lead(|Form(x)| - 1) <= s[i] as nat < Lead(|Form(x)|)
    ensures i + |Form(x)| <= |s| && forall j :: i < j < i + |Form(x)| ==> IsCont(s[j])
  {
    var b := s[i..i + |Form(x)|];
    assert b == Form(x) && b[0] == s[i];
    if x >= 0x80 { FormShape(x); }
    forall j | i < j < i + |b| ensures IsCont(s[j]) {
      assert s[j] == b[j - i];
    }
  }

  /** A sequence that a first byte asks for but that is not there, or is no form. */
  lemma NotForm(s: Bytes, i: nat, count: nat)
    requires i < |s| && Lead(count) <= s[i] as nat && count <= 7
    requires s[i] as nat >= Lead(count + 1) ==> !IsCont(At(s, i + count + 1))
    requires s[i] as nat < Lead(count + 1) && 1 <= count <= 3 ==>
               && i + count < |s| && Shaped(s[i..i + count + 1])
               && (Val(s[i..i + count + 1]) > MAXUNICODE || Val(s[i..i + count + 1]) <= Limit(count))
    ensures NoForm(s, i)
  {
    forall x: Code {:trigger Form(x)} ensures !(Form(x) <= s[i..]) {
      if Form(x) <= s[i..] { FormAt(s, i, x); }
    }
  }

  /** utf8_decode: the code point whose form is there and the position behind it,
      exactly if there is one. */
  method Decode(s: Bytes, i: nat) returns (r: Option<(Code, nat)>)
    requires i < |s|
    ensures r.Some? ==> r.value.1 == i + |Form(r.value.0)| <= |s| && s[i..r.value.1] == Form(r.value.0)
    ensures r.None? ==> NoForm(s, i)
  {
    var c0 := s[i] as nat;
    if c0 < 0x80 {
      return Some((c0, i + 1));
    }
    var c: nat, count: nat, res: nat := c0, 0, 0;
    assert s[i + 1..i + 1] == [];
    BitTest(c0, 0);
    while c / 0x40 % 2 == 1
      invariant count <= 7 && c == c0 * Pow2(count) && i + count < |s| && Lead(count) <= c0 == s[i] as nat
      invariant c / 0x40 % 2 == 1 <==> c0 >= Lead(count + 1)
      invariant forall j :: i < j <= i + count ==> IsCont(s[j])
      invariant res == Bits(s[i + 1..i + count + 1])
      decreases 8 - count
    {
      count := count + 1;
      var cc := At(s, i + count);
      if !IsCont(cc) {
        NotForm(s, i, count - 1);
        return None;
      }
      assert s[i + 1..i + count + 1][..count - 1] == s[i + 1..i + count];
      res := res * 0x40 + cc as nat % 0x40;
      c := c * 2;
      if count <= 7 { BitTest(c0, count); }
    }
    r := Finish(s, i, c, count, res);
  }

  method Finish(s: Bytes, i: nat, c: nat, count: nat, res0: nat) returns (r: Option<(Code, nat)>)
    requires count <= 7 && i + count < |s| && Lead(count) <= s[i] as nat < Lead(count + 1)
    requires c == s[i] as nat * Pow2(count) && res0 == Bits(s[i + 1..i + count + 1])
    requires forall j :: i < j <= i + count ==> IsCont(s[j])
    ensures r.Some? ==> r.value.1 == i + |Form(r.value.0)| <= |s| && s[i..r.value.1] == Form(r.value.0)
    ensures r.None? ==> NoForm(s, i)
  {
    var b := s[i..i + count + 1];
    var res := res0 + c % 0x80 * Power(0x20, count);
    assert b[1..] == s[i + 1..i + count + 1];
    if count <= 3 { FirstBits(s[i] as nat, count); }
    if count == 0 { assert b[1..] == []; }
    if count > 3 || res > MAXUNICODE || res <= Limit(count) {
      NotForm(s, i, count);
      return None;
    }
    ShapeForm(b);
    r := Some((res, i + count + 1));
  }

  // ---- Whole strings ----

  function Encoded(codes: seq<Code>): Bytes {
    if codes == [] then [] else Encoded(codes[..|codes| - 1]) + Form(codes[|codes| - 1])
  }

  /** No form begins with another. */
  lemma FormUnique(x: Code, y: Code, t: Bytes)
    requires Form(x) <= t && Form(y) <= t
    ensures x == y
  {
    assert t[0..] == t;
    FormAt(t, 0, x);
    FormAt(t, 0, y);
    if |Form(x)| == 1 { assert Form(x)[0] == t[0] == Form(y)[0]; }
  }

  lemma {:induction false} EncodedPrefix(codes: seq<Code>, k: nat)
    requires k <= |codes|
    ensures Encoded(codes[..k]) <= Encoded(codes)
    ensures k < |codes| ==> Encoded(codes[..k + 1]) == Encoded(codes[..k]) + Form(codes[k])
    ensures |codes| <= |Encoded(codes)|
  {
    if codes != [] {
      var front := codes[..|codes| - 1];
      EncodedLast(codes);
      if k == |codes| {
        assert codes[..k] == codes;
        EncodedPrefix(front, k - 1);
      } else {
        EncodedPrefix(front, k);
        assert front[..k] == codes[..k];
        OneMoreCode(codes, k);
      }
    }
  }

  lemma OneMoreCode(codes: seq<Code>, k: nat)
    requires k < |codes|
    ensures Encoded(codes[..k + 1]) == Encoded(codes[..k]) + Form(codes[k])
  {
    EncodedLast(codes[..k + 1]);
    assert codes[..k + 1][..k] == codes[..k];
  }

  lemma EncodedLast(codes: seq<Code>)
    requires codes != []
    ensures Encoded(codes) == Encoded(codes[..|codes| - 1]) + Form(codes[|codes| - 1]) && Form(codes[|codes| - 1]) != []
  {
  }

  /** Two readings of the same bytes agree as far as both go. */
  lemma {:induction false} SameReading(a: seq<Code>, b: seq<Code>, t: Bytes, k: nat)
    requires Encoded(a) <= t && Encoded(b) <= t && k <= |a| && k <= |b|
    ensures a[..k] == b[..k]
  {
    if k > 0 {
      SameReading(a, b, t, k - 1);
      FormBehind(a, t, k - 1);
      FormBehind(b, t, k - 1);
      FormUnique(a[k - 1], b[k - 1], t[|Encoded(a[..k - 1])|..]);
      SamePrefix(a, b, k - 1);
    }
  }

  lemma SamePrefix<T>(a: seq<T>, b: seq<T>, j: nat)
    requires j < |a| && j < |b| && a[..j] == b[..j] && a[j] == b[j]
    ensures a[..j + 1] == b[..j + 1]
  {
    assert a[..j + 1] == a[..j] + [a[j]] && b[..j + 1] == b[..j] + [b[j]];
  }

  lemma FormBehind(a: seq<Code>, t: Bytes, j: nat)
    requires Encoded(a) <= t && j < |a|
    ensures |Encoded(a[..j])| <= |t| && Form(a[j]) <= t[|Encoded(a[..j])|..]
  {
    EncodedPrefix(a, j);
    EncodedPrefix(a, j + 1);
    Behind(Encoded(a[..j]), Form(a[j]), Encoded(a), t);
  }

  lemma Behind(u: Bytes, v: Bytes, w: Bytes, t: Bytes)
    requires u + v <= w <= t
    ensures v <= t[|u|..]
  {
    assert w[..|u + v|] == t[..|u + v|] == u + v;
    assert t[|u|..][..|v|] == v;
  }

  /** The code points whose forms start at `from` or later and before `to`. */
  ghost predicate Reads(s: Bytes, from: nat, to: nat, codes: seq<Code>) {
    && from <= to <= |s| && Encoded(codes) <= s[from..] && from + |Encoded(codes)| >= to
    && forall k :: 0 <= k < |codes| ==> from + |Encoded(codes[..k])| < to
  }

  ghost predicate NoReading(s: Bytes, from: nat, to: nat) {
    forall codes :: !Reads(s, from, to, codes)
  }

  /** There is at most one reading. */
  lemma ReadsUnique(s: Bytes, from: nat, to: nat, a: seq<Code>, b: seq<Code>)
    requires Reads(s, from, to, a) && Reads(s, from, to, b)
    ensures a == b
  {
    if |a| <= |b| { NoLonger(s, from, to, a, b); } else { NoLonger(s, from, to, b, a); }
  }

  lemma NoLonger(s: Bytes, from: nat, to: nat, a: seq<Code>, b: seq<Code>)
    requires Reads(s, from, to, a) && Reads(s, from, to, b) && |a| <= |b|
    ensures a == b
  {
    assert a[..|a|] == a && (|a| == |b| ==> b[..|a|] == b);
    assert |a| < |b| ==> from + |Encoded(b[..|a|])| < to;
    SameReading(a, b, s[from..], |a|);
  }

  /** The characters read so far, up to `p`. */
  ghost predicate ReadTo(s: Bytes, from: nat, to: nat, p: nat, codes: seq<Code>) {
    && from <= p == from + |Encoded(codes)| && p <= |s| && Encoded(codes) <= s[from..]
    && forall k :: 0 <= k < |codes| ==> from + |Encoded(codes[..k])| < to
  }

  /** Where no form starts, the reading ends. */
  lemma Stuck(s: Bytes, from: nat, to: nat, p: nat, done: seq<Code>)
    requires ReadTo(s, from, to, p, done) && p < to <= |s| && NoForm(s, p)
    ensures NoReading(s, from, to) && Encoded(done) == s[from..p]
  {
    assert s[from..][|Encoded(done)|..] == s[p..] && done[..|done|] == done;
    forall codes ensures !Reads(s, from, to, codes) {
      if Reads(s, from, to, codes) {
        var k := if |done| < |codes| then |done| else |codes|;
        SameReading(done, codes, s[from..], k);
        EncodedPrefix(done, k);
        assert codes[..|codes|] == codes;
        if |done| < |codes| { FormBehind(codes, s[from..], k); }
      }
    }
  }

  /** One more character has been read. */
  lemma ReadOne(s: Bytes, from: nat, to: nat, p: nat, codes: seq<Code>, x: Code)
    requires ReadTo(s, from, to, p, codes) && p < to && p + |Form(x)| <= |s| && s[p..p + |Form(x)|] == Form(x)
    ensures ReadTo(s, from, to, p + |Form(x)|, codes + [x])
  {
    var more := codes + [x];
    assert forall k :: 0 <= k <= |codes| ==> more[..k] == codes[..k];
    assert codes[..|codes|] == codes;
    Ahead(Encoded(codes), Form(x), s, from);
  }

  lemma Ahead(u: Bytes, v: Bytes, s: Bytes, from: nat)
    requires from + |u| + |v| <= |s| && u <= s[from..] && s[from + |u|..from + |u| + |v|] == v
    ensures u + v <= s[from..]
  {
    assert s[from..][..|u|] == u;
    assert s[from..][..|u| + |v|] == u + v;
  }

  /** u_posrelat: negative positions count from the end, where -1 is the last byte. */
  function PosRelat(pos: int, len: nat): (r: int)
    ensures pos >= 0 ==> r == pos
    ensures pos < 0 && pos + len >= 0 ==> 1 <= r <= len && len - r == -1 - pos
    ensures pos + len < 0 ==> r == 0
  {
    if pos >= 0 then pos else if -pos > len then 0 else len + pos + 1
  }

  datatype Result<+T> = Ok(value: T) | OutOfRange | TooLong | Invalid(pos: nat)

  ghost predicate BadFrom(s: Bytes, from: nat, to: nat, pos: nat) {
    && from < pos <= to <= |s| && NoReading(s, from, to) && NoForm(s, pos - 1)
    && exists codes :: Encoded(codes) == s[from..pos - 1]
  }

  /** codepoint */
  method Codepoint(s: Bytes, i: int, j: int) returns (r: Result<seq<Code>>)
    ensures var from, to := PosRelat(i, |s|), PosRelat(j, |s|);
            if from < 1 || to > |s| then r == OutOfRange
            else if from > to then r == Ok([])
            else if to - from >= MAX_INT then r == TooLong
            else (r.Ok? && Reads(s, from - 1, to, r.value)) || (r.Invalid? && BadFrom(s, from - 1, to, r.pos))
  {
    var posi, pose := PosRelat(i, |s|), PosRelat(j, |s|);
    if posi < 1 || pose > |s| {
      return OutOfRange;
    }
    if posi > pose {
      return Ok([]);
    }
    if pose - posi >= MAX_INT {
      return TooLong;
    }
    var p: nat, codes: seq<Code> := posi - 1, [];
    while p < pose
      invariant ReadTo(s, posi - 1, pose, p, codes)
      decreases |s| - p
    {
      var d := Decode(s, p);
      if d.None? {
        Stuck(s, posi - 1, pose, p, codes);
        return Invalid(p + 1);
      }
      ReadOne(s, posi - 1, pose, p, codes, d.value.0);
      codes := codes + [d.value.0];
      p := d.value.1;
    }
    r := Ok(codes);
  }

  ghost predicate Counted(s: Bytes, from: nat, to: nat, n: nat) {
    exists codes :: Reads(s, from, to, codes) && n == |codes|
  }

  /** The loop of utflen: the forms that start before `to`. */
  method CountForms(s: Bytes, from: nat, to: int) returns (r: Result<nat>)
    requires from <= |s| && to <= |s|
    ensures if from >= to then r == Ok(0)
            else (r.Ok? && Counted(s, from, to, r.value)) || (r.Invalid? && BadFrom(s, from, to, r.pos))
  {
    var p, n := from, 0;
    ghost var codes: seq<Code>, end := [], if from < to then to else from;
    while p <= to - 1
      invariant ReadTo(s, from, end, p, codes) && n == |codes|
      decreases |s| - p
    {
      var d := Decode(s, p);
      if d.None? {
        Stuck(s, from, end, p, codes);
        return Invalid(p + 1);
      }
      ReadOne(s, from, end, p, codes, d.value.0);
      codes := codes + [d.value.0];
      n := n + 1;
      p := d.value.1;
    }
    if from < to { assert Reads(s, from, to, codes); }
    r := Ok(n);
  }

  /** utflen: how many code points Codepoint gives, or where the first byte is that
      no form starts with. */
  method UtfLen(s: Bytes, i: int, j: int) returns (r: Result<nat>)
    ensures var from, to := PosRelat(i, |s|), PosRelat(j, |s|);
            if from < 1 || from > |s| + 1 || to > |s| then r == OutOfRange
            else if from > to then r == Ok(0)
            else (r.Ok? && Counted(s, from - 1, to, r.value)) || (r.Invalid? && BadFrom(s, from - 1, to, r.pos))
  {
    var posi, posj := PosRelat(i, |s|), PosRelat(j, |s|);
    if posi < 1 || posi - 1 > |s| || posj - 1 >= |s| {
      return OutOfRange;
    }
    r := CountForms(s, posi - 1, posj);
  }

  /** utfchar: the index of the first argument out of range, or the string. */
  method UtfChar(args: seq<int>) returns (r: Result<Bytes>)
    ensures r.Invalid? ==> 1 <= r.pos <= |args| && !(0 <= args[r.pos - 1] <= MAXUNICODE)
    ensures r.Ok? ==> AllCodes(args) && r.value == Encoded(Codes(args))
    ensures r.Ok? || r.Invalid?
  {
    var b: Bytes, i := [], 0;
    var buff := new byte[UTF8BUFFSZ](_ => 0);
    while i < |args|
      invariant 0 <= i <= |args| && AllCodes(args[..i]) && b == Encoded(Codes(args[..i]))
    {
      if !(0 <= args[i] <= MAXUNICODE) {
        return Invalid(i + 1);
      }
      var n := Utf8Esc(buff, args[i]);
      OneMore(args, i);
      b := b + buff[UTF8BUFFSZ - n..];
      i := i + 1;
    }
    assert args[..i] == args;
    r := Ok(b);
  }

  lemma OneMore(args: seq<int>, i: nat)
    requires i < |args| && AllCodes(args[..i + 1])
    ensures AllCodes(args[..i]) && Encoded(Codes(args[..i + 1])) == Encoded(Codes(args[..i])) + Form(args[i])
  {
    assert args[..i + 1][..i] == args[..i];
    assert Codes(args[..i + 1])[..i] == Codes(args[..i]);
  }

  predicate AllCodes(args: seq<int>) {
    forall i :: 0 <= i < |args| ==> 0 <= args[i] <= MAXUNICODE
  }

  function Codes(args: seq<int>): seq<Code>
    requires AllCodes(args)
  {
    seq(|args|, i requires 0 <= i < |args| => args[i])
  }

  /** Reading a whole string gives the code points that it was made of, exactly. */
  lemma WholeString(s: Bytes, codes: seq<Code>)
    ensures Reads(s, 0, |s|, codes) <==> s == Encoded(codes)
  {
    assert s[0..] == s;
    if s == Encoded(codes) {
      forall k | 0 <= k < |codes| ensures |Encoded(codes[..k])| < |s| {
        EncodedPrefix(codes, k);
        EncodedPrefix(codes, k + 1);
      }
    }
  }

  /** utf8.codepoint(utf8.char(...), 1, -1) and utf8.len of the same string. */
  method RoundTrip(args: seq<int>) returns (codes: Result<seq<Code>>, n: Result<nat>)
    requires AllCodes(args) && 4 * |args| < MAX_INT
    ensures codes == Ok(Codes(args)) && n == Ok(|args|)
  {
    var s := UtfChar(args);
    EncodedPrefix(Codes(args), 0);
    codes := Codepoint(s.value, 1, -1);
    n := UtfLen(s.value, 1, -1);
    WholeString(s.value, Codes(args));
    EncodedLength(Codes(args));
    if args != [] {
      forall c | Reads(s.value, 0, |s.value|, c) ensures c == Codes(args) {
        ReadsUnique(s.value, 0, |s.value|, c, Codes(args));
      }
    }
  }

  lemma {:induction false} EncodedLength(codes: seq<Code>)
    ensures |codes| <= |Encoded(codes)| <= 4 * |codes|
  {
    if codes != [] { EncodedLength(codes[..|codes| - 1]); }
  }
}
