/** Comparing integers with floats exactly (src/lvm.c). */
module NumberOrder {
  import opened LuaValues
  import opened Powers

  /** 1 << NBM, where NBM are the 53 bits of the significand of a float. */
  const LIMIT: int := 0x20_0000_0000_0000

  /** The finite doubles: a significand of 53 bits times or divided by a power of
      two. */
  ghost predicate IsDouble(f: Float) {
    f.Finite? ==> exists m: int, k: nat :: Significand(m) && Scaled(f.r, m, Pow2(k))
  }

  predicate Scaled(r: real, m: int, p: nat) {
    r == (m * p) as real || r * p as real == m as real
  }

  predicate Significand(m: int) {
    -LIMIT < m < LIMIT
  }

  predicate IsInteger(i: int) {
    MIN_INTEGER <= i <= MAX_INTEGER
  }

  /** l_intfitsf */
  predicate IntFitsFloat(i: int) {
    -LIMIT <= i <= LIMIT
  }

  /** cast_num, for integers that it does not round: others are not converted. */
  function CastNum(i: int): Float
    requires -0x20_0000_0000_0000 <= i <= 0x20_0000_0000_0000 || i == MIN_INTEGER
  {
    Finite(i as real)
  }

  /** Comparison of floats by the machine. */
  predicate FloatLess(a: Float, b: Float) {
    a != NaN && b != NaN && a != b && (a == NegInf || b == PosInf || (a.Finite? && b.Finite? && a.r < b.r))
  }

  predicate FloatLessEq(a: Float, b: Float) {
    a != NaN && b != NaN && (a == b || FloatLess(a, b))
  }

  function Negate(f: Float): Float {
    match f
    case NaN => NaN
    case PosInf => NegInf
    case NegInf => PosInf
    case Finite(r) => Finite(-r)
  }

  /** cast to integer: towards zero. The cast is defined for floats in the range only. */
  function Truncate(f: Float): (i: int)
    requires f.Finite? && MIN_INTEGER as real <= f.r < -(MIN_INTEGER as real)
    ensures if f.r >= 0.0 then i as real <= f.r < i as real + 1.0 else i as real - 1.0 < f.r <= i as real
    ensures MIN_INTEGER <= i <= MAX_INTEGER
  {
    if f.r >= 0.0 then f.r.Floor else -((-f.r).Floor)
  }

  predicate LTintfloat(i: int, f: Float)
    requires IsInteger(i)
  {
    if !IntFitsFloat(i) then
      if FloatLessEq(Negate(CastNum(MIN_INTEGER)), f) then true
      else if FloatLess(CastNum(MIN_INTEGER), f) then i < Truncate(f)
      else false
    else FloatLess(CastNum(i), f)
  }

  predicate LEintfloat(i: int, f: Float)
    requires IsInteger(i)
  {
    if !IntFitsFloat(i) then
      if FloatLessEq(Negate(CastNum(MIN_INTEGER)), f) then true
      else if FloatLessEq(CastNum(MIN_INTEGER), f) then i <= Truncate(f)
      else false
    else FloatLessEq(CastNum(i), f)
  }

  ghost predicate IsNumber(v: Value) {
    (v.Int? && IsInteger(v.i)) || (v.Flt? && IsDouble(v.f))
  }

  predicate LTnum(l: Value, r: Value)
    requires l.Int? || l.Flt?
    requires r.Int? || r.Flt?
    requires (l.Int? ==> IsInteger(l.i)) && (r.Int? ==> IsInteger(r.i))
  {
    if l.Int? then
      if r.Int? then l.i < r.i else LTintfloat(l.i, r.f)
    else if r.Flt? then FloatLess(l.f, r.f)
    else if l.f == NaN then false
    else !LEintfloat(r.i, l.f)
  }

  predicate LEnum(l: Value, r: Value)
    requires l.Int? || l.Flt?
    requires r.Int? || r.Flt?
    requires (l.Int? ==> IsInteger(l.i)) && (r.Int? ==> IsInteger(r.i))
  {
    if l.Int? then
      if r.Int? then l.i <= r.i else LEintfloat(l.i, r.f)
    else if r.Flt? then FloatLessEq(l.f, r.f)
    else if l.f == NaN then false
    else !LTintfloat(r.i, l.f)
  }

  /** The number that a value stands for, integers included. */
  function Number(v: Value): Float
    requires v.Int? || v.Flt?
  {
    if v.Int? then Finite(v.i as real) else v.f
  }

  /** A double that is too large for a fraction has none. */
  lemma LargeIsIntegral(f: Float)
    requires f.Finite? && IsDouble(f) && (f.r >= LIMIT as real || f.r <= -(LIMIT as real))
    ensures f.r == f.r.Floor as real
  {
    var m: int, k: nat :| Significand(m) && Scaled(f.r, m, Pow2(k));
    NoFraction(f.r, m, Pow2(k));
  }

  /** A multiple of a large number has no small significand. */
  lemma NoFraction(r: real, m: int, p: nat)
    requires Significand(m) && p >= 1 && (r >= LIMIT as real || r <= -(LIMIT as real))
    ensures r * p as real != m as real
  {
    Multiple(if r >= 0.0 then r else -r, p as real);
  }

  lemma Multiple(r: real, p: real)
    requires r >= 0.0 && p >= 1.0
    ensures r * p >= r && (-r) * p == -(r * p)
  {
  }

  lemma TruncateIntegral(f: Float, n: int)
    requires f == Finite(n as real) && IsInteger(n)
    ensures Truncate(f) == n
  {
    assert -(n as real) == (-n) as real;
  }

  lemma TruncateSmall(f: Float)
    requires f.Finite? && -(LIMIT as real) < f.r < LIMIT as real
    ensures -LIMIT <= Truncate(f) <= LIMIT
  {
  }

  /** Truncation does not matter where it is used. */
  lemma TruncateCompares(i: int, f: Float)
    requires IsInteger(i) && !IntFitsFloat(i) && f.Finite? && IsDouble(f)
    requires MIN_INTEGER as real <= f.r < -(MIN_INTEGER as real)
    ensures (i < Truncate(f) <==> i as real < f.r) && (i <= Truncate(f) <==> i as real <= f.r)
  {
    if f.r >= LIMIT as real || f.r <= -(LIMIT as real) {
      LargeIsIntegral(f);
      var n := f.r.Floor;
      assert f.r == n as real && IsInteger(n);
      TruncateIntegral(f, n);
    } else {
      TruncateSmall(f);
    }
  }

  lemma LTintfloatExact(i: int, f: Float)
    requires IsInteger(i) && IsDouble(f)
    ensures LTintfloat(i, f) <==> FloatLess(Finite(i as real), f)
  {
    if f.Finite? && !IntFitsFloat(i) && MIN_INTEGER as real <= f.r < -(MIN_INTEGER as real) { TruncateCompares(i, f); }
  }

  lemma LEintfloatExact(i: int, f: Float)
    requires IsInteger(i) && IsDouble(f)
    ensures LEintfloat(i, f) <==> FloatLessEq(Finite(i as real), f)
  {
    if f.Finite? && !IntFitsFloat(i) && MIN_INTEGER as real <= f.r < -(MIN_INTEGER as real) { TruncateCompares(i, f); }
  }

  /** Less-than of two numbers is the mathematical order, whatever their types. */
  lemma LTnumExact(l: Value, r: Value)
    requires IsNumber(l) && IsNumber(r)
    ensures LTnum(l, r) <==> FloatLess(Number(l), Number(r))
  {
    if l.Int? && r.Flt? { LTintfloatExact(l.i, r.f); }
    if l.Flt? && r.Int? { LEintfloatExact(r.i, l.f); }
  }

  lemma LEnumExact(l: Value, r: Value)
    requires IsNumber(l) && IsNumber(r)
    ensures LEnum(l, r) <==> FloatLessEq(Number(l), Number(r))
  {
    if l.Int? && r.Flt? { LEintfloatExact(l.i, r.f); }
    if l.Flt? && r.Int? { LTintfloatExact(r.i, l.f); }
  }

  /** Finite numbers compare as the reals that they are; minus infinity is below and
      infinity above everything else that is a number; NaN is not comparable. */
  lemma OrderOfNumbers(l: Value, r: Value)
    requires IsNumber(l) && IsNumber(r)
    ensures (l.Int? || l.f.Finite?) && (r.Int? || r.f.Finite?) ==>
              var x, y := if l.Int? then l.i as real else l.f.r, if r.Int? then r.i as real else r.f.r;
              (LTnum(l, r) <==> x < y) && (LEnum(l, r) <==> x <= y)
    ensures l == Flt(NegInf) ==>
              (LTnum(l, r) <==> r != Flt(NaN) && r != Flt(NegInf)) && (LEnum(l, r) <==> r != Flt(NaN))
    ensures r == Flt(PosInf) ==>
              (LTnum(l, r) <==> l != Flt(NaN) && l != Flt(PosInf)) && (LEnum(l, r) <==> l != Flt(NaN))
    ensures l == Flt(PosInf) ==> !LTnum(l, r) && (LEnum(l, r) <==> r == Flt(PosInf))
    ensures r == Flt(NegInf) ==> !LTnum(l, r) && (LEnum(l, r) <==> l == Flt(NegInf))
    ensures l == Flt(NaN) || r == Flt(NaN) ==> !LTnum(l, r) && !LEnum(l, r)
  {
    LTnumExact(l, r);
    LEnumExact(l, r);
  }

  /** Both comparisons are transitive over any mixture of integers and floats. */
  lemma OrderTransitive(a: Value, b: Value, c: Value)
    requires IsNumber(a) && IsNumber(b) && IsNumber(c)
    ensures LEnum(a, b) && LEnum(b, c) ==> LEnum(a, c)
    ensures LTnum(a, b) && LEnum(b, c) ==> LTnum(a, c)
    ensures LEnum(a, b) && LTnum(b, c) ==> LTnum(a, c)
  {
    LEnumExact(a, b);
    LEnumExact(b, c);
    LEnumExact(a, c);
    LTnumExact(a, b);
    LTnumExact(b, c);
    LTnumExact(a, c);
  }

  /** Raw equality belongs to the same order: of two numbers other than NaN one is
      less, or they are equal. */
  lemma Trichotomy(l: Value, r: Value)
    requires IsNumber(l) && IsNumber(r)
    ensures RawEqual(l, r) <==> LEnum(l, r) && LEnum(r, l)
    ensures Number(l) != NaN && Number(r) != NaN ==>
              (LTnum(l, r) || LTnum(r, l) || RawEqual(l, r)) && !(LTnum(l, r) && LTnum(r, l)) &&
              (RawEqual(l, r) ==> !LTnum(l, r) && !LTnum(r, l))
    ensures Number(l) == NaN || Number(r) == NaN ==> !LTnum(l, r) && !LEnum(l, r) && !RawEqual(l, r)
  {
    LTnumExact(l, r);
    LTnumExact(r, l);
    LEnumExact(l, r);
    LEnumExact(r, l);
    EqualExact(l, r);
  }

  lemma EqualExact(l: Value, r: Value)
    requires IsNumber(l) && IsNumber(r)
    ensures RawEqual(l, r) <==> Number(l) == Number(r) && Number(l) != NaN
  {
    if l.Int? && r.Flt? { IntegralFloat(r.f, l.i); }
    if l.Flt? && r.Int? { IntegralFloat(l.f, r.i); }
  }

  lemma IntegralFloat(f: Float, i: int)
    requires IsInteger(i)
    ensures FloatToInteger(f) == Some(i) <==> f == Finite(i as real)
  {
    if f == Finite(i as real) { assert f.r.Floor == i; }
  }
}
