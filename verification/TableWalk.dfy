/** Traversal and length of tables (src/ltable.c). */
module TableWalk {
  import opened LuaValues
  import opened HashNodes
  import opened ArraySizes
  import opened TableContents
  import opened HybridTable

  /** Cells are numbered through the array part, then through the nodes. */
  ghost function CellKey(arr: seq<Value>, ns: seq<Node>, p: nat): Value
    requires p < |arr| + |ns|
  {
    if p < |arr| then Int(p + 1) else ns[p - |arr|].key
  }

  ghost function CellValue(arr: seq<Value>, ns: seq<Node>, p: nat): Value
    requires p < |arr| + |ns|
  {
    if p < |arr| then arr[p] else ns[p - |arr|].val
  }

  /** `p` is the first cell with a value at or after `from`. */
  ghost predicate FirstFrom(arr: seq<Value>, ns: seq<Node>, from: nat, p: nat) {
    && from <= p < |arr| + |ns| && CellValue(arr, ns, p) != Nil
    && NoneBetween(arr, ns, from, p)
  }

  ghost predicate NoneBetween(arr: seq<Value>, ns: seq<Node>, from: nat, to: nat) {
    forall q :: from <= q < to && q < |arr| + |ns| ==> CellValue(arr, ns, q) == Nil
  }

  /** Different cells have different keys. */
  lemma CellKeysDiffer(arr: seq<Value>, ns: seq<Node>, p: nat, q: nat)
    requires Fit(arr, ns) && p < q < |arr| + |ns| && CellKey(arr, ns, p) != Nil
    ensures CellKey(arr, ns, p) != CellKey(arr, ns, q)
  {
  }

  lemma OneCellPerKey(arr: seq<Value>, ns: seq<Node>, p: nat, q: nat)
    requires Fit(arr, ns) && p < |arr| + |ns| && q < |arr| + |ns|
    requires CellKey(arr, ns, p) == CellKey(arr, ns, q) != Nil
    ensures p == q
  {
  }

  /** Every live key has a cell. */
  lemma LiveCell(arr: seq<Value>, ns: seq<Node>, k: Value) returns (p: nat)
    requires k in LiveKeys(arr, ns)
    ensures p < |arr| + |ns| && CellKey(arr, ns, p) == k && CellValue(arr, ns, p) != Nil
  {
    if k in ArrayKeys(arr) {
      var i :| 0 <= i < |arr| && arr[i] != Nil && Int(i + 1) == k;
      p := i;
    } else {
      var i :| 0 <= i < |ns| && ns[i].val != Nil && ns[i].key == k;
      p := |arr| + i;
    }
  }

  /** findindex: one past the number of the cell that holds `key`, 0 for nil, -1
      for the error "invalid key to 'next'". */
  method FindIndex(t: Table, key: Value) returns (index: int)
    requires t.Valid()
    ensures key == Nil ==> index == 0
    ensures key != Nil && index != -1 ==>
              0 < index <= t.arr.Length + t.node.Length &&
              CellKey(t.arr[..], t.node[..], index - 1) == Normal(key)
    ensures index == -1 ==> key != Nil
    ensures IsKey(key) && index == -1 ==> t.IsSlot(key, NilObject)
  {
    if key == Nil {
      return 0;
    }
    if key.Int? && 0 < key.i <= MAXASIZE && key.i <= t.arr.Length {
      return key.i;
    }
    SearchStarts(t.hash, t.node[..], t.rank, key);
    var n := FindNode(t, key, MainPosition(t.hash, t.node.Length, key));
    index := if n == -1 then -1 else n + 1 + t.arr.Length;
  }

  /** While a search is at node `n`: a stored key can only be ahead. */
  ghost predicate Searching(ns: seq<Node>, rank: seq<nat>, key: Value, n: nat) {
    Ranked(ns, rank) && n < |ns| && (IsKey(key) ==> Ahead(ns, rank, key, n))
  }

  lemma SearchStarts(hash: Value -> nat, ns: seq<Node>, rank: seq<nat>, key: Value)
    requires WellFormed(hash, ns, rank)
    ensures StoredKeys(ns) && Searching(ns, rank, key, MainPosition(hash, |ns|, key))
  {
    if IsKey(key) { AheadAtMain(hash, ns, rank, key); }
  }

  lemma SearchStep(ns: seq<Node>, rank: seq<nat>, key: Value, n: nat)
    requires Searching(ns, rank, key, n) && (IsKey(key) ==> ns[n].key != key)
    ensures ns[n].next == 0 && IsKey(key) ==> !HasKey(ns, key)
    ensures ns[n].next != 0 ==>
              0 <= n + ns[n].next && Searching(ns, rank, key, n + ns[n].next) && rank[n + ns[n].next] < rank[n]
  {
    assert ns[n].next != 0 ==> Succ(ns, n) == n + ns[n].next;
    if IsKey(key) { AheadStep(ns, rank, key, n); }
  }

  ghost predicate StoredKeys(ns: seq<Node>) {
    forall i :: 0 <= i < |ns| ==> ns[i].key == Nil || IsKey(ns[i].key)
  }

  /** The loop of findindex over the chain that starts at `start`. */
  method FindNode(t: Table, key: Value, start: nat) returns (n: int)
    requires key != Nil && StoredKeys(t.node[..]) && Searching(t.node[..], t.rank, key, start)
    ensures -1 <= n < t.node.Length
    ensures n != -1 ==> t.node[n].key == Normal(key)
    ensures n == -1 && IsKey(key) ==> !HasKey(t.node[..], key)
  {
    n := start;
    ghost var ns, rank := t.node[..], t.rank;
    while true
      invariant 0 <= n < |ns| && Searching(ns, rank, key, n)
      decreases rank[n]
    {
      var same := SameKey(t.node[n].key, key);
      if same {
        return n;
      }
      SearchStep(ns, rank, key, n);
      if t.node[n].next == 0 {
        return -1;
      }
      n := n + t.node[n].next;
    }
  }

  /** luaV_rawequalobj, applied to the key of a node. */
  method SameKey(nodeKey: Value, key: Value) returns (same: bool)
    requires key != Nil && (nodeKey == Nil || IsKey(nodeKey))
    ensures same ==> nodeKey == Normal(key)
    ensures IsKey(key) && nodeKey == key ==> same
  {
    same := RawEqual(nodeKey, key);
  }

  datatype NextResult = Entry(key: Value, value: Value) | NoMore | InvalidKey

  /** `from` is where a traversal stands after it has returned `key`. */
  ghost predicate StandsAt(arr: seq<Value>, ns: seq<Node>, key: Value, from: int) {
    && 0 <= from <= |arr| + |ns|
    && (key == Nil ==> from == 0)
    && (key != Nil ==> from > 0 && CellKey(arr, ns, from - 1) == Normal(key))
  }

  /** luaH_next: the first entry with a value after the one with the given key. */
  method Next(t: Table, key: Value) returns (r: NextResult, ghost from: int, ghost at: nat)
    requires t.Valid()
    ensures r.InvalidKey? ==> key != Nil && (IsKey(key) ==> t.IsSlot(key, NilObject))
    ensures !r.InvalidKey? ==> StandsAt(t.arr[..], t.node[..], key, from)
    ensures r.Entry? ==> FirstFrom(t.arr[..], t.node[..], from, at) &&
                         r == Entry(CellKey(t.arr[..], t.node[..], at), CellValue(t.arr[..], t.node[..], at))
    ensures r.Entry? ==> IsEntryKey(r.key)
    ensures r.NoMore? ==> NoneBetween(t.arr[..], t.node[..], from, t.arr.Length + t.node.Length)
  {
    at := 0;
    var i := FindIndex(t, key);
    from := i;
    if i == -1 {
      return InvalidKey, from, at;
    }
    i := FirstValue(t, i);
    at := i;
    r := CellEntry(t, i);
    if r.Entry? { CellIsKey(t, i); }
  }

  /** What luaH_next returns for the cell its loops stopped at. */
  method CellEntry(t: Table, i: nat) returns (r: NextResult)
    ensures i < t.arr.Length + t.node.Length ==>
              r == Entry(CellKey(t.arr[..], t.node[..], i), CellValue(t.arr[..], t.node[..], i))
    ensures i >= t.arr.Length + t.node.Length ==> r == NoMore
  {
    if i < t.arr.Length {
      r := Entry(Int(i + 1), t.arr[i]);
    } else if i - t.arr.Length < t.node.Length {
      r := Entry(t.node[i - t.arr.Length].key, t.node[i - t.arr.Length].val);
    } else {
      r := NoMore;
    }
  }

  /** The two loops of luaH_next: first the array part, then the hash part. */
  method FirstValue(t: Table, from: nat) returns (at: nat)
    requires from <= t.arr.Length + t.node.Length
    ensures from <= at <= t.arr.Length + t.node.Length
    ensures NoneBetween(t.arr[..], t.node[..], from, at)
    ensures at < t.arr.Length + t.node.Length ==> CellValue(t.arr[..], t.node[..], at) != Nil
  {
    ghost var arr, ns := t.arr[..], t.node[..];
    at := from;
    while at < t.arr.Length
      invariant from <= at <= |arr| + |ns| && NoneBetween(arr, ns, from, at)
    {
      if t.arr[at] != Nil {
        return;
      }
      at := at + 1;
    }
    at := at - t.arr.Length;
    while at < t.node.Length
      invariant from <= at + |arr| <= |arr| + |ns| && NoneBetween(arr, ns, from, at + |arr|)
    {
      if t.node[at].val != Nil {
        at := at + t.arr.Length;
        return;
      }
      at := at + 1;
    }
    at := at + t.arr.Length;
  }

  // ---- A whole traversal ----

  /** The keys that a clearing plan names. */
  ghost function Planned(plan: seq<seq<Value>>): set<Value> {
    set i, j | 0 <= i < |plan| && 0 <= j < |plan[i]| :: Normal(plan[i][j])
  }

  ghost function Normals(ks: seq<Value>): set<Value> {
    set j | 0 <= j < |ks| :: Normal(ks[j])
  }

  /** What has been cleared after `n` entries. */
  ghost function ClearedBy(plan: seq<seq<Value>>, n: nat): set<Value> {
    Planned(if n < |plan| then plan[..n] else plan)
  }

  lemma ClearedNext(plan: seq<seq<Value>>, n: nat)
    ensures n < |plan| ==> ClearedBy(plan, n + 1) == ClearedBy(plan, n) + Normals(plan[n])
    ensures n >= |plan| ==> ClearedBy(plan, n + 1) == ClearedBy(plan, n)
    ensures ClearedBy(plan, n) <= Planned(plan)
  {
    if n < |plan| {
      var next := if n + 1 < |plan| then plan[..n + 1] else plan;
      assert next == plan[..n] + [plan[n]];
      forall k | k in ClearedBy(plan, n) + Normals(plan[n]) ensures k in ClearedBy(plan, n + 1) {
        if k in Normals(plan[n]) {
          var j :| 0 <= j < |plan[n]| && Normal(plan[n][j]) == k;
          assert next[n][j] == plan[n][j];
        } else {
          var i, j :| 0 <= i < n && 0 <= j < |plan[..n][i]| && Normal(plan[..n][i][j]) == k;
          assert next[i][j] == plan[i][j];
        }
      }
    }
  }

  /** Cells kept their keys; a value is gone only if its key was to be cleared. */
  ghost predicate OnlyCleared(arr: seq<Value>, ns: seq<Node>, arr': seq<Value>, ns': seq<Node>, keys: set<Value>) {
    && |arr'| == |arr| && |ns'| == |ns|
    && forall p :: 0 <= p < |arr| + |ns| ==>
         CellKey(arr', ns', p) == CellKey(arr, ns, p) &&
         (CellValue(arr', ns', p) == CellValue(arr, ns, p) ||
          (CellValue(arr', ns', p) == Nil && CellKey(arr, ns, p) in keys))
  }

  lemma CellsCleared(arr: seq<Value>, ns: seq<Node>, arr': seq<Value>, ns': seq<Node>, k: Value)
    requires |arr'| == |arr| && |ns'| == |ns|
    requires forall i :: 0 <= i < |arr| ==> arr'[i] == arr[i] || (arr'[i] == Nil && k == Int(i + 1))
    requires forall i :: 0 <= i < |ns| ==>
               ns'[i].key == ns[i].key && (ns'[i].val == ns[i].val || (ns'[i].val == Nil && k == ns'[i].key))
    ensures OnlyCleared(arr, ns, arr', ns', {k})
  {
  }

  method StoreNil(t: Table, s: Slot, ghost k: Value)
    requires t.Valid() && t.IsSlot(k, s) && s != NilObject
    modifies t.arr, t.node
    ensures t.Valid() && t.Contents() == old(t.Contents()) - {k}
    ensures OnlyCleared(old(t.arr[..]), old(t.node[..]), t.arr[..], t.node[..], {k})
  {
    ghost var arr, ns := t.arr[..], t.node[..];
    t.Store(s, k, Nil);
    CellsCleared(arr, ns, t.arr[..], t.node[..], k);
    forall q | q != Nil && q != k ensures Lookup(t.arr[..], t.node[..], q) == Lookup(arr, ns, q) {
      assert t.Get(q) == old(t.Get(q));
    }
    assert t.Get(k) == Nil;
    MapUpdated(arr, ns, t.arr[..], t.node[..], k, Nil);
  }

  /** t[k] = nil for an entry that may exist; nothing happens if it does not. */
  method Clear(t: Table, k: Value)
    requires t.Valid()
    modifies t.arr, t.node
    ensures t.Valid() && t.Contents() == old(t.Contents()) - {Normal(k)}
    ensures OnlyCleared(old(t.arr[..]), old(t.node[..]), t.arr[..], t.node[..], {Normal(k)})
  {
    ghost var arr, ns := t.arr[..], t.node[..];
    var s := t.Find(k);
    if s != NilObject {
      StoreNil(t, s, Normal(k));
    } else {
      MapOfIsLookup(arr, ns, Normal(k));
    }
  }

  lemma ClearedMore(arr: seq<Value>, ns: seq<Node>, arr1: seq<Value>, ns1: seq<Node>, arr2: seq<Value>,
                    ns2: seq<Node>, keys: set<Value>, k: Value)
    requires OnlyCleared(arr, ns, arr1, ns1, keys) && OnlyCleared(arr1, ns1, arr2, ns2, {k}) && k in keys
    ensures OnlyCleared(arr, ns, arr2, ns2, keys)
  {
  }

  lemma OneMoreGone(m: map<Value, Value>, ks: seq<Value>, j: nat)
    requires j < |ks|
    ensures m - Normals(ks[..j]) - {Normal(ks[j])} == m - Normals(ks[..j + 1])
  {
    assert ks[..j + 1] == ks[..j] + [ks[j]];
    assert Normals(ks[..j + 1]) == Normals(ks[..j]) + {Normal(ks[j])};
  }

  method ClearAll(t: Table, ks: seq<Value>, ghost keys: set<Value>)
    requires t.Valid() && forall j :: 0 <= j < |ks| ==> Normal(ks[j]) in keys
    modifies t.arr, t.node
    ensures t.Valid() && t.Contents() == old(t.Contents()) - Normals(ks)
    ensures OnlyCleared(old(t.arr[..]), old(t.node[..]), t.arr[..], t.node[..], keys)
  {
    for j := 0 to |ks|
      invariant t.Valid() && t.Contents() == old(t.Contents()) - Normals(ks[..j])
      invariant OnlyCleared(old(t.arr[..]), old(t.node[..]), t.arr[..], t.node[..], keys)
    {
      ghost var arr, ns, m := t.arr[..], t.node[..], t.Contents();
      Clear(t, ks[j]);
      ClearedMore(old(t.arr[..]), old(t.node[..]), arr, ns, t.arr[..], t.node[..], keys, Normal(ks[j]));
      OneMoreGone(old(t.Contents()), ks, j);
    }
    assert ks[..|ks|] == ks;
  }

  /** What a traversal that stands at `pos` has returned so far. */
  ghost predicate Visited(arr: seq<Value>, ns: seq<Node>, arr': seq<Value>, ns': seq<Node>, pos: nat,
                          visited: seq<Value>) {
    && pos <= |arr| + |ns| && |arr'| == |arr| && |ns'| == |ns|
    && (forall p :: 0 <= p < pos && CellValue(arr', ns', p) != Nil ==> CellKey(arr', ns', p) in visited)
    && (forall k :: k in visited ==>
          exists p :: 0 <= p < pos && CellKey(arr, ns, p) == k && CellValue(arr, ns, p) != Nil)
    && (forall i, j :: 0 <= i < j < |visited| ==> visited[i] != visited[j])
  }

  ghost predicate IsEntryKey(key: Value) {
    key == Nil || IsKey(key)
  }

  lemma CellIsKey(t: Table, p: nat)
    requires t.Valid() && p < t.arr.Length + t.node.Length && CellKey(t.arr[..], t.node[..], p) != Nil
    ensures IsEntryKey(CellKey(t.arr[..], t.node[..], p))
  {
  }

  /** A traversal at `pos` that has just returned `key`, or nothing yet. */
  ghost predicate StandsBehind(arr: seq<Value>, ns: seq<Node>, key: Value, pos: int) {
    || (key == Nil && pos == 0)
    || (IsKey(key) && StandsAt(arr, ns, key, pos))
  }

  lemma VisitNext(arr: seq<Value>, ns: seq<Node>, arr': seq<Value>, ns': seq<Node>, keys: set<Value>,
                  pos: nat, at: nat, visited: seq<Value>, key: Value) returns (pos': int)
    requires Fit(arr, ns) && OnlyCleared(arr, ns, arr', ns', keys)
    requires Visited(arr, ns, arr', ns', pos, visited) && FirstFrom(arr', ns', pos, at)
    requires IsEntryKey(key) && key == CellKey(arr', ns', at)
    ensures pos < pos' <= |arr| + |ns|
    ensures Visited(arr, ns, arr', ns', pos', visited + [key]) && StandsBehind(arr, ns, key, pos')
  {
    pos' := at + 1;
    if key in visited {
      var p :| 0 <= p < pos && CellKey(arr, ns, p) == key && CellValue(arr, ns, p) != Nil;
      CellKeysDiffer(arr, ns, p, at);
    }
    assert CellValue(arr, ns, at) != Nil;
  }

  lemma ClearingKeepsVisited(arr: seq<Value>, ns: seq<Node>, arr1: seq<Value>, ns1: seq<Node>, arr2: seq<Value>,
                             ns2: seq<Node>, keys: set<Value>, pos: nat, visited: seq<Value>)
    requires Visited(arr, ns, arr1, ns1, pos, visited)
    requires OnlyCleared(arr, ns, arr1, ns1, keys) && OnlyCleared(arr1, ns1, arr2, ns2, keys)
    ensures Visited(arr, ns, arr2, ns2, pos, visited) && OnlyCleared(arr, ns, arr2, ns2, keys)
  {
  }

  /** Clearing entries in the middle of a traversal. */
  method ClearVisiting(t: Table, ks: seq<Value>, ghost arr: seq<Value>, ghost ns: seq<Node>, ghost keys: set<Value>,
                       ghost pos: nat, ghost visited: seq<Value>)
    requires t.Valid() && forall j :: 0 <= j < |ks| ==> Normal(ks[j]) in keys
    requires OnlyCleared(arr, ns, t.arr[..], t.node[..], keys) && Visited(arr, ns, t.arr[..], t.node[..], pos, visited)
    modifies t.arr, t.node
    ensures t.Valid() && OnlyCleared(arr, ns, t.arr[..], t.node[..], keys)
    ensures Visited(arr, ns, t.arr[..], t.node[..], pos, visited)
    ensures t.Contents() == old(t.Contents()) - Normals(ks)
  {
    ghost var arr1, ns1 := t.arr[..], t.node[..];
    ClearAll(t, ks, keys);
    ClearingKeepsVisited(arr, ns, arr1, ns1, t.arr[..], t.node[..], keys, pos, visited);
  }

  /** The next call resumes where the last one stopped: clearing values moves no
      key, and the key of the last entry is still found. */
  lemma SamePlace(arr: seq<Value>, ns: seq<Node>, arr': seq<Value>, ns': seq<Node>, keys: set<Value>,
                  key: Value, pos: nat, from: int, invalid: bool)
    requires Fit(arr, ns) && OnlyCleared(arr, ns, arr', ns', keys)
    requires StandsBehind(arr, ns, key, pos)
    requires invalid ==> key != Nil && !InArray(key, |arr'|) && !HasKey(ns', key)
    requires !invalid ==> StandsAt(arr', ns', key, from)
    ensures !invalid && from == pos
  {
    if key != Nil {
      assert CellKey(arr', ns', pos - 1) == key;
      if !invalid {
        assert CellKey(arr, ns, from - 1) == key;
        OneCellPerKey(arr, ns, from - 1, pos - 1);
      }
    }
  }

  lemma AllVisited(arr: seq<Value>, ns: seq<Node>, arr': seq<Value>, ns': seq<Node>, keys: set<Value>,
                   pos: nat, visited: seq<Value>)
    requires OnlyCleared(arr, ns, arr', ns', keys) && Visited(arr, ns, arr', ns', pos, visited)
    requires NoneBetween(arr', ns', pos, |arr| + |ns|)
    ensures forall k :: k in visited ==> k in LiveKeys(arr, ns)
    ensures forall k :: k in LiveKeys(arr', ns') ==> k in visited
    ensures forall k :: k in LiveKeys(arr, ns) && k !in keys ==> k in LiveKeys(arr', ns')
  {
    forall k | k in visited ensures k in LiveKeys(arr, ns) {
      var p :| 0 <= p < pos && CellKey(arr, ns, p) == k && CellValue(arr, ns, p) != Nil;
      CellIsLive(arr, ns, p);
    }
    forall k | k in LiveKeys(arr', ns') ensures k in visited {
      var p := LiveCell(arr', ns', k);
    }
    forall k | k in LiveKeys(arr, ns) && k !in keys ensures k in LiveKeys(arr', ns') {
      var p := LiveCell(arr, ns, k);
      CellIsLive(arr', ns', p);
    }
  }

  lemma CellIsLive(arr: seq<Value>, ns: seq<Node>, p: nat)
    requires p < |arr| + |ns| && CellValue(arr, ns, p) != Nil
    ensures CellKey(arr, ns, p) in LiveKeys(arr, ns)
  {
    if p < |arr| {
      assert Int(p + 1) in ArrayKeys(arr);
    } else {
      assert ns[p - |arr|].key in NodeKeys(ns);
    }
  }

  /** Entry number `i` was in the table and has not been cleared before. */
  ghost predicate ComesUp(m: map<Value, Value>, plan: seq<seq<Value>>, visited: seq<Value>, i: nat)
    requires i < |visited|
  {
    visited[i] in m && visited[i] !in ClearedBy(plan, i)
  }

  /** A table that was `m` is now `m'`, and the entries have come up as they should. */
  ghost predicate Progress(m: map<Value, Value>, m': map<Value, Value>, plan: seq<seq<Value>>, visited: seq<Value>) {
    && m' == m - ClearedBy(plan, |visited|)
    && forall i {:trigger ComesUp(m, plan, visited, i)} :: 0 <= i < |visited| ==> ComesUp(m, plan, visited, i)
  }

  lemma ProgressNext(m: map<Value, Value>, m1: map<Value, Value>, m2: map<Value, Value>, plan: seq<seq<Value>>,
                     visited: seq<Value>, key: Value)
    requires Progress(m, m1, plan, visited) && key in m1
    requires m2 == if |visited| < |plan| then m1 - Normals(plan[|visited|]) else m1
    ensures Progress(m, m2, plan, visited + [key])
  {
    ClearedNext(plan, |visited|);
    forall i | 0 <= i < |visited| + 1 ensures ComesUp(m, plan, visited + [key], i) {
      assert i < |visited| ==> ComesUp(m, plan, visited, i);
    }
  }

  lemma NothingYet(m: map<Value, Value>, plan: seq<seq<Value>>)
    ensures Progress(m, m, plan, [])
  {
    assert ClearedBy(plan, 0) == {};
  }

  /** Traverse the table from nil, setting the entries of `plan[i]` to nil after
      the i-th entry. The traversal stops; no entry comes up twice; what comes up is an
      entry that has not been cleared by then; what has not been cleared in the end has
      come up; and exactly what was to be cleared is gone. */
  method Walk(t: Table, plan: seq<seq<Value>>) returns (visited: seq<Value>)
    requires t.Valid()
    modifies t.arr, t.node
    ensures t.Valid()
    ensures forall i, j :: 0 <= i < j < |visited| ==> visited[i] != visited[j]
    ensures forall i :: 0 <= i < |visited| ==> ComesUp(old(t.Contents()), plan, visited, i)
    ensures t.Contents() == old(t.Contents()) - ClearedBy(plan, |visited|)
    ensures forall k :: k in t.Contents() ==> k in visited
  {
    ghost var arr, ns, keys := t.arr[..], t.node[..], Planned(plan);
    ghost var pos, m := 0, t.Contents();
    var key, step := Nil, 0;
    visited := [];
    NothingYet(m, plan);
    while true
      invariant step == |visited| && Progress(m, t.Contents(), plan, visited)
      invariant t.Valid() && OnlyCleared(arr, ns, t.arr[..], t.node[..], keys)
      invariant Visited(arr, ns, t.arr[..], t.node[..], pos, visited)
      invariant 0 <= pos <= |arr| + |ns| && StandsBehind(arr, ns, key, pos)
      decreases |arr| + |ns| - pos
    {
      var r, from, at := Next(t, key);
      SamePlace(arr, ns, t.arr[..], t.node[..], keys, key, pos, from, r.InvalidKey?);
      if r.NoMore? {
        break;
      }
      CellIsLive(t.arr[..], t.node[..], at);
      pos := VisitNext(arr, ns, t.arr[..], t.node[..], keys, pos, at, visited, r.key);
      ghost var m1, before := t.Contents(), visited;
      visited, key := visited + [r.key], r.key;
      if step < |plan| {
        ClearVisiting(t, plan[step], arr, ns, keys, pos, visited);
      }
      ProgressNext(m, m1, t.Contents(), plan, before, r.key);
      step := step + 1;
    }
    AllVisited(arr, ns, t.arr[..], t.node[..], keys, pos, visited);
  }
}
