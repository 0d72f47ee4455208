/** Lua values as the table sees them: what can be a key, when two keys are the
    same key, and how a float key with an integral value becomes an integer. */
module LuaValues {

  const MIN_INTEGER: int := -0x8000_0000_0000_0000
  const MAX_INTEGER: int := 0x7fff_ffff_ffff_ffff

  /** The largest C int. */
  const MAX_INT: nat := 0x7fff_ffff

  datatype Option<+T> = None | Some(value: T)

  /** Floats up to numeric equality: both zeros are Finite(0.0). */
  datatype Float = NaN | PosInf | NegInf | Finite(r: real)

  /** Strings and full pointers compare by contents or identity; the payloads
      below are what such a comparison looks at. */
  datatype Value =
    | Nil
    | Bool(b: bool)
    | Int(i: int)
    | Flt(f: Float)
    | ShortStr(s: string)
    | LongStr(s: string)
    | LightPointer(p: nat)
    | CFunction(p: nat)
    | Object(p: nat)

  /** Conversion of a float to an integer that accepts integral values only. */
  function FloatToInteger(f: Float): (r: Option<int>)
    ensures r.Some? <==> f.Finite? && f.r == f.r.Floor as real && MIN_INTEGER <= f.r.Floor <= MAX_INTEGER
    ensures r.Some? ==> r.value as real == f.r
  {
    if f.Finite? && f.r == f.r.Floor as real && MIN_INTEGER <= f.r.Floor <= MAX_INTEGER
    then Some(f.r.Floor)
    else None
  }

  /** The key under which an entry is really stored. */
  function Normal(key: Value): (k: Value)
    ensures !(k.Flt? && FloatToInteger(k.f).Some?)
  {
    if key.Flt? && FloatToInteger(key.f).Some? then Int(FloatToInteger(key.f).value) else key
  }

  /** Keys that may live in a table, in their stored form. */
  predicate IsKey(key: Value) {
    key != Nil && key != Flt(NaN) && Normal(key) == key
  }

  /** Raw equality of the C code: by type, except that numbers compare by value. */
  predicate RawEqual(a: Value, b: Value) {
    if a.Flt? && b.Flt? then a == b && a.f != NaN
    else if a.Int? && b.Flt? then FloatToInteger(b.f) == Some(a.i)
    else if a.Flt? && b.Int? then FloatToInteger(a.f) == Some(b.i)
    else a == b
  }

  /** Raw equality is exactly "same stored key", for every pair but NaN. */
  lemma RawEqualIsSameKey(a: Value, b: Value)
    requires a.Int? ==> MIN_INTEGER <= a.i <= MAX_INTEGER
    requires b.Int? ==> MIN_INTEGER <= b.i <= MAX_INTEGER
    ensures RawEqual(a, b) <==> Normal(a) == Normal(b) && a != Flt(NaN)
  {
    if a.Flt? && b.Flt? && FloatToInteger(a.f).Some? && FloatToInteger(b.f).Some? {
      if FloatToInteger(a.f).value == FloatToInteger(b.f).value {
        assert a.f.r == b.f.r;
      }
    }
  }
}
