/** The length operator on tables (luaH_getn in src/ltable.c). */
module TableLength {
  import opened LuaValues
  import opened TableContents
  import opened HybridTable

  /** t[n] is not nil, or n is 0; and t[n + 1] is nil. */
  ghost predicate IsBoundary(t: Table, n: int)
    reads t, t.arr, t.node
  {
    0 <= n && Present(t, n) && t.Get(Int(n + 1)) == Nil
  }

  /** Zero or the index of a value. */
  ghost predicate Present(t: Table, n: int)
    reads t, t.arr, t.node
  {
    n == 0 || t.Get(Int(n)) != Nil
  }

  lemma {:induction false} IntBound(keys: set<Value>) returns (b: nat)
    ensures forall k :: Int(k) in keys ==> k <= b
  {
    if keys == {} {
      b := 0;
    } else {
      var key :| key in keys;
      b := IntBound(keys - {key});
      if key.Int? && key.i > b { b := key.i; }
    }
  }

  /** Beyond some index a table holds no integer key. */
  lemma LastIndex(t: Table) returns (b: nat)
    requires t.Valid()
    ensures forall k :: k > b ==> t.Get(Int(k)) == Nil
  {
    b := IntBound(t.Live());
    forall k | k > b ensures t.Get(Int(k)) == Nil {
      LiveIsLookup(t.arr[..], t.node[..], Int(k));
    }
  }

  method IsNil(t: Table, k: int) returns (nil: bool)
    requires t.Valid()
    ensures nil <==> t.Get(Int(k)) == Nil
  {
    MapOfIsLookup(t.arr[..], t.node[..], Int(k));
    var v := t.ReadKey(Int(k));
    nil := v == Nil;
  }

  /** The linear search for tables "built with bad purposes". */
  method LinearSearch(t: Table) returns (n: nat)
    requires t.Valid()
    ensures IsBoundary(t, n)
  {
    ghost var b := LastIndex(t);
    var i := 1;
    while true
      invariant 1 <= i && Present(t, i - 1)
      decreases b + 1 - i
    {
      var nil := IsNil(t, i);
      if nil {
        break;
      }
      i := i + 1;
    }
    return i - 1;
  }

  /** Between a present index and an absent one there is a boundary. */
  method BinarySearch(t: Table, low: nat, high: nat) returns (n: nat)
    requires t.Valid() && low < high && Present(t, low) && t.Get(Int(high)) == Nil
    ensures IsBoundary(t, n)
  {
    var i, j := low, high;
    while j - i > 1
      invariant 0 <= i < j && Present(t, i) && t.Get(Int(j)) == Nil
    {
      var m := (i + j) / 2;
      var nil := IsNil(t, m);
      if nil { j := m; } else { i := m; }
    }
    return i;
  }

  /** unbound_search: double the index until it is absent. */
  method UnboundSearch(t: Table, start: nat) returns (n: nat)
    requires t.Valid() && Present(t, start)
    ensures IsBoundary(t, n)
  {
    var i, j := start, start + 1;
    while true
      invariant 0 <= i < j && Present(t, i)
      decreases MAX_INT - j
    {
      var nil := IsNil(t, j);
      if nil {
        break;
      }
      i := j;
      if j > MAX_INT / 2 {
        n := LinearSearch(t);
        return;
      }
      j := j * 2;
    }
    n := BinarySearch(t, i, j);
  }

  /** luaH_getn */
  method GetN(t: Table) returns (n: nat)
    requires t.Valid()
    ensures IsBoundary(t, n)
  {
    var j := t.arr.Length;
    if j > 0 && t.arr[j - 1] == Nil {
      var i := 0;
      while j - i > 1
        invariant 0 <= i < j <= t.arr.Length && t.arr[j - 1] == Nil && (i == 0 || t.arr[i - 1] != Nil)
      {
        var m := (i + j) / 2;
        if t.arr[m - 1] == Nil { j := m; } else { i := m; }
      }
      return i;
    } else if t.lastfree == -1 {
      assert t.Get(Int(j + 1)) == Nil;
      return j;
    } else {
      n := UnboundSearch(t, j);
    }
  }
}
