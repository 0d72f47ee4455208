/** What the two parts of a table hold together, and how its keys are counted
    for a rehash. Everything here is about snapshots (src/ltable.c). */
module TableContents {
  import opened LuaValues
  import opened HashNodes
  import opened Powers
  import opened ArraySizes

  const MAXHBITS: nat := MAXABITS - 1

  predicate InArray(k: Value, size: nat) {
    k.Int? && 1 <= k.i <= size
  }

  /** The finite map a table stands for, as a total function: nil is absence. */
  ghost function Lookup(arr: seq<Value>, ns: seq<Node>, k: Value): Value {
    if InArray(k, |arr|) then arr[k.i - 1] else HashGet(ns, k)
  }

  /** No integer that belongs to the array part sits in the hash part. */
  ghost predicate Separate(ns: seq<Node>, size: nat) {
    forall i :: 0 <= i < |ns| ==> !InArray(ns[i].key, size)
  }

  /** Every node at or above `lastfree` has a key. */
  ghost predicate FullFrom(ns: seq<Node>, lastfree: int) {
    forall i :: 0 <= i < |ns| && lastfree <= i ==> ns[i].key != Nil
  }

  ghost predicate HasFree(ns: seq<Node>, lastfree: int) {
    exists i :: 0 <= i < |ns| && i < lastfree && ns[i].key == Nil
  }

  ghost function ArrayKeys(arr: seq<Value>): set<Value> {
    set i | 0 <= i < |arr| && arr[i] != Nil :: Int(i + 1)
  }

  ghost function NodeKeys(ns: seq<Node>): set<Value> {
    set i | 0 <= i < |ns| && ns[i].val != Nil :: ns[i].key
  }

  /** Keys with a non-nil value. */
  ghost function LiveKeys(arr: seq<Value>, ns: seq<Node>): set<Value> {
    ArrayKeys(arr) + NodeKeys(ns)
  }

  /** Live keys that an array part of the given size leaves to the hash part. */
  ghost function OutKeys(live: set<Value>, size: nat): set<Value> {
    set k | k in live && !InArray(k, size)
  }

  /** Live keys that could go to an array part. */
  ghost function IntKeys(live: set<Value>): set<int> {
    set k | k in live && InArray(k, MAXASIZE) :: k.i
  }

  // ---- Facts about the contents ----

  lemma HashGetSuffix(ns: seq<Node>, j: nat, k: Value)
    requires DistinctKeys(ns) && j < |ns| && k != Nil
    ensures HashGet(ns[j..], k) == if ns[j].key == k then ns[j].val else HashGet(ns[j + 1..], k)
  {
    SuffixDistinct(ns, j);
    SuffixDistinct(ns, j + 1);
    var a, b := ns[j..], ns[j + 1..];
    if ns[j].key == k {
      HashGetIs(a, k, 0);
    } else if i :| 0 <= i < |b| && b[i].key == k {
      assert a[i + 1] == b[i];
      HashGetIs(a, k, i + 1);
      HashGetIs(b, k, i);
    } else {
      assert forall i :: 0 < i < |a| ==> a[i] == b[i - 1];
      assert !HasKey(a, k);
    }
  }

  lemma SuffixDistinct(ns: seq<Node>, j: nat)
    requires DistinctKeys(ns) && j <= |ns|
    ensures DistinctKeys(ns[j..])
    ensures forall i :: j <= i < |ns| ==> ns[j..][i - j] == ns[i]
  {
  }

  lemma FewKeysLeaveRoom(ns: seq<Node>, lastfree: int, keys: set<Value>, k: Value)
    requires DistinctKeys(ns) && FullFrom(ns, lastfree)
    requires KeySet(ns) <= keys && k in keys && k !in KeySet(ns) && |keys| <= |ns|
    ensures HasFree(ns, lastfree)
  {
    SubsetSize(KeySet(ns), keys - {k});
    FreeNodeExists(ns);
  }

  /** While a search for `k` is at node `n`, `k` can only be ahead in the chain. */
  ghost predicate Ahead(ns: seq<Node>, rank: seq<nat>, k: Value, n: nat) {
    && Ranked(ns, rank) && n < |ns|
    && forall j :: 0 <= j < |ns| && ns[j].key == k ==> Reaches(ns, rank, n, j)
  }

  lemma AheadAtMain(hash: Value -> nat, ns: seq<Node>, rank: seq<nat>, k: Value)
    requires WellFormed(hash, ns, rank) && k != Nil
    ensures Ahead(ns, rank, k, MainPosition(hash, |ns|, k))
  {
    forall j | 0 <= j < |ns| && ns[j].key == k
      ensures Reaches(ns, rank, MainPosition(hash, |ns|, k), j)
    {
      assert Placed(hash, ns, rank, j);
    }
  }

  lemma AheadStep(ns: seq<Node>, rank: seq<nat>, k: Value, n: nat)
    requires Ahead(ns, rank, k, n) && ns[n].key != k
    ensures ns[n].next == 0 ==> !HasKey(ns, k)
    ensures ns[n].next != 0 ==>
              0 <= n + ns[n].next && Ahead(ns, rank, k, n + ns[n].next) && rank[n + ns[n].next] < rank[n]
  {
    forall j | 0 <= j < |ns| && ns[j].key == k
      ensures ns[n].next != 0 && Reaches(ns, rank, Succ(ns, n), j)
    {
      assert Reaches(ns, rank, n, j);
    }
  }

  lemma StoreSeparate(ns: seq<Node>, size: nat, lastfree: int, n: nat, v: Value)
    requires n < |ns| && Separate(ns, size)
    ensures Separate(ns[n := Node(ns[n].key, v, ns[n].next)], size)
    ensures FullFrom(ns, lastfree) ==> FullFrom(ns[n := Node(ns[n].key, v, ns[n].next)], lastfree)
  {
  }

  /** `ns'` is `ns` with a new key at `n`, still without a value, paid for with
      the free node `f`. */
  ghost predicate Placement(ns: seq<Node>, ns': seq<Node>, f: nat, n: nat, key: Value) {
    && |ns'| == |ns| && n < |ns'| && ns'[n].key == key && ns'[n].val == Nil
    && (forall i :: 0 <= i < |ns| && i != f ==> (ns'[i].key == Nil <==> ns[i].key == Nil))
    && f < |ns'| && ns'[f].key != Nil
    && KeySet(ns') == KeySet(ns) + {key}
    && (forall q :: q != Nil ==> HashGet(ns', q) == HashGet(ns, q))
  }

  /** The nodes after the insertion are in order, too. */
  ghost predicate Inserted(hash: Value -> nat, ns: seq<Node>, ns': seq<Node>, rank': seq<nat>, f: nat, n: nat,
                           key: Value) {
    ns' == [] || (WellFormed(hash, ns', rank') && Placement(ns, ns', f, n, key))
  }

  /** Only `f` changes from having no key to having one. */
  lemma MoveGuestShape(ns: seq<Node>, prev: nat, mp: nat, f: nat, key: Value)
    requires prev < |ns| && mp < |ns| && f < |ns| && prev != mp && prev != f && f != mp
    requires key != Nil && ns[mp].key != Nil
    ensures var ns' := MoveGuest(ns, prev, mp, f, key);
            ns'[mp] == Node(key, Nil, 0) && ns'[f].key != Nil &&
            forall i :: 0 <= i < |ns| && i != f ==> (ns'[i].key == Nil <==> ns[i].key == Nil)
  {
  }

  lemma MoveGuestPlacement(hash: Value -> nat, ns: seq<Node>, rank: seq<nat>, prev: nat, f: nat, key: Value)
    requires WellFormed(hash, ns, rank) && IsKey(key) && !HasKey(ns, key)
    requires CanMove(ns, rank, prev, MainPosition(hash, |ns|, key), f)
    requires var mp := MainPosition(hash, |ns|, key); MainPosition(hash, |ns|, ns[mp].key) != mp
    ensures var mp := MainPosition(hash, |ns|, key);
            prev != mp && prev != f && f != mp &&
            Inserted(hash, ns, MoveGuest(ns, prev, mp, f, key), rank[f := rank[mp]], f, mp, key)
  {
    var mp := MainPosition(hash, |ns|, key);
    MoveGuestKeeps(hash, ns, rank, prev, f, key);
    MoveGuestSucc(ns, rank, prev, mp, f, key, mp);
    assert Placement(ns, MoveGuest(ns, prev, mp, f, key), f, mp, key) by {
      MoveGuestContents(ns, rank, prev, mp, f, key);
      assert ns[mp].key != Nil;
      MoveGuestShape(ns, prev, mp, f, key);
    }
  }

  /** What is known when the main position is taken and `f` is free. */
  lemma TakenMain(hash: Value -> nat, ns: seq<Node>, rank: seq<nat>, mp: nat, f: nat)
    requires WellFormed(hash, ns, rank) && mp < |ns| && f < |ns|
    requires ns[mp].val != Nil && ns[f].key == Nil
    ensures CanChain(ns, rank, mp, f)
    ensures Reaches(ns, rank, MainPosition(hash, |ns|, ns[mp].key), mp)
    ensures forall p: nat :: p < |ns| && ns[p].next != 0 && Succ(ns, p) == mp ==> CanMove(ns, rank, p, mp, f)
  {
    assert Placed(hash, ns, rank, mp);
  }

  lemma ChainAfterPlacement(hash: Value -> nat, ns: seq<Node>, rank: seq<nat>, f: nat, key: Value)
    requires WellFormed(hash, ns, rank) && IsKey(key) && !HasKey(ns, key)
    requires CanChain(ns, rank, MainPosition(hash, |ns|, key), f)
    requires var mp := MainPosition(hash, |ns|, key); MainPosition(hash, |ns|, ns[mp].key) == mp
    ensures var mp := MainPosition(hash, |ns|, key);
            f != mp && ns[f].next == 0 &&
            Inserted(hash, ns, ChainAfter(ns, mp, f, key), RankAfter(rank, mp, f), f, f, key)
  {
    var mp := MainPosition(hash, |ns|, key);
    ChainAfterKeeps(hash, ns, rank, f, key);
    ChainAfterContents(ns, rank, mp, f, key);
  }

  lemma SeparateByKeys(ns: seq<Node>, size: nat)
    ensures Separate(ns, size) <==> forall k :: k in KeySet(ns) ==> !InArray(k, size)
  {
    if forall k :: k in KeySet(ns) ==> !InArray(k, size) {
      forall i | 0 <= i < |ns| ensures !InArray(ns[i].key, size) {
        if ns[i].key != Nil { assert ns[i].key in KeySet(ns); }
      }
    }
  }

  lemma TakeMainKeys(ns: seq<Node>, mp: nat, key: Value)
    requires mp < |ns|
    ensures KeySet(TakeMain(ns, mp, key)) <= KeySet(ns) + {key}
  {
  }

  /** A key is live exactly when looking it up gives something. */
  lemma LiveIsLookup(arr: seq<Value>, ns: seq<Node>, k: Value)
    requires DistinctKeys(ns) && FreeNodesUnlinked(ns) && Separate(ns, |arr|)
    ensures k in LiveKeys(arr, ns) <==> k != Nil && Lookup(arr, ns, k) != Nil
  {
    if k in NodeKeys(ns) {
      var i :| 0 <= i < |ns| && ns[i].val != Nil && ns[i].key == k;
      HashGetIs(ns, k, i);
    }
    if k in ArrayKeys(arr) {
      var i :| 0 <= i < |arr| && arr[i] != Nil && Int(i + 1) == k;
    }
    if k != Nil && Lookup(arr, ns, k) != Nil {
      if InArray(k, |arr|) {
        assert arr[k.i - 1] != Nil;
        assert k in ArrayKeys(arr);
      } else {
        var i :| 0 <= i < |ns| && ns[i].key == k;
        HashGetIs(ns, k, i);
        assert k in NodeKeys(ns);
      }
    }
  }

  /** The finite map that a table with these parts stands for. */
  ghost function MapOf(arr: seq<Value>, ns: seq<Node>): map<Value, Value> {
    map k | k in LiveKeys(arr, ns) :: Lookup(arr, ns, k)
  }

  /** The parts of a table fit together. */
  ghost predicate Fit(arr: seq<Value>, ns: seq<Node>) {
    DistinctKeys(ns) && FreeNodesUnlinked(ns) && Separate(ns, |arr|)
  }

  lemma MapOfIsLookup(arr: seq<Value>, ns: seq<Node>, k: Value)
    requires Fit(arr, ns)
    ensures k in MapOf(arr, ns) <==> k != Nil && Lookup(arr, ns, k) != Nil
    ensures k in MapOf(arr, ns) ==> MapOf(arr, ns)[k] == Lookup(arr, ns, k)
  {
    LiveIsLookup(arr, ns, k);
  }

  lemma MapUpdated(arr: seq<Value>, ns: seq<Node>, arr': seq<Value>, ns': seq<Node>, key: Value, value: Value)
    requires Fit(arr, ns) && Fit(arr', ns') && key != Nil
    requires Lookup(arr', ns', key) == value
    requires forall q :: q != Nil && q != key ==> Lookup(arr', ns', q) == Lookup(arr, ns, q)
    ensures MapOf(arr', ns') == if value != Nil then MapOf(arr, ns)[key := value] else MapOf(arr, ns) - {key}
  {
    var m, m' := MapOf(arr, ns), MapOf(arr', ns');
    var r := if value != Nil then m[key := value] else m - {key};
    forall k ensures (k in m' <==> k in r) && (k in r ==> m'[k] == r[k]) {
      MapOfIsLookup(arr, ns, k);
      MapOfIsLookup(arr', ns', k);
    }
  }

  lemma EmptyNodesWellFormed(hash: Value -> nat, n: nat)
    requires n > 0
    ensures var ns := seq(n, _ => EMPTY_NODE);
            WellFormed(hash, ns, seq(n, _ => 0)) && KeySet(ns) == {} && forall q :: HashGet(ns, q) == Nil
  {
    var ns := seq(n, _ => EMPTY_NODE);
    assert forall i :: 0 <= i < n ==> ns[i] == EMPTY_NODE;
  }

  lemma HashPartFits(size: nat, lsize: nat)
    requires SliceStart(lsize) < size <= MAX_KEYS
    ensures lsize <= MAXHBITS && Pow2(lsize) <= MAX_KEYS
  {
    MaxSizeIsPow2();
    if lsize > 30 { Pow2Monotonic(30, lsize - 1); } else { Pow2Monotonic(lsize, 30); }
  }

  lemma PrefixStep(oa: seq<Value>, i: nat)
    requires i < |oa|
    ensures forall q :: Lookup(oa[..i + 1], [], q) == if q == Int(i + 1) then oa[i] else Lookup(oa[..i], [], q)
  {
    forall q ensures Lookup(oa[..i + 1], [], q) == if q == Int(i + 1) then oa[i] else Lookup(oa[..i], [], q) {
      if InArray(q, i + 1) { assert oa[..i + 1][q.i - 1] == oa[q.i - 1]; }
    }
  }

  lemma NoValues(ns: seq<Node>, from: nat)
    requires from <= |ns| && forall i :: from <= i < |ns| ==> ns[i].val == Nil
    ensures forall q :: HashGet(ns[from..], q) == Nil
  {
  }

  lemma SuffixStep(ns: seq<Node>, j: nat)
    requires DistinctKeys(ns) && j < |ns|
    ensures forall q :: q != Nil ==>
              HashGet(ns[j..], q) == if q == ns[j].key then ns[j].val else HashGet(ns[j + 1..], q)
    ensures ns[j].key != Nil ==> HashGet(ns[j + 1..], ns[j].key) == Nil
  {
    forall q | q != Nil
      ensures HashGet(ns[j..], q) == if q == ns[j].key then ns[j].val else HashGet(ns[j + 1..], q)
    {
      HashGetSuffix(ns, j, q);
    }
    SuffixDistinct(ns, j + 1);
    assert ns[j].key != Nil ==> !HasKey(ns[j + 1..], ns[j].key);
  }

  /** A key of the old hash part: it goes to the new array part or is in `out`. */
  ghost predicate Returns(k: Value, nasize: nat, oldasize: nat, out: set<Value>) {
    IsKey(k) && !InArray(k, oldasize) && (InArray(k, nasize) || k in out)
  }

  lemma ReturningKeys(oa: seq<Value>, on: seq<Node>, nasize: nat)
    requires Separate(on, |oa|)
    requires forall i :: 0 <= i < |on| && on[i].key != Nil ==> IsKey(on[i].key)
    requires forall i :: 0 <= i < |on| && on[i].key == Nil ==> on[i].val == Nil
    ensures var out := OutKeys(LiveKeys(oa, on), nasize);
            && (forall i :: nasize <= i < |oa| && oa[i] != Nil ==> Int(i + 1) in out)
            && (forall i :: 0 <= i < |on| && on[i].val != Nil ==> Returns(on[i].key, nasize, |oa|, out))
  {
    var live := LiveKeys(oa, on);
    forall i | 0 <= i < |on| && on[i].val != Nil ensures Returns(on[i].key, nasize, |oa|, OutKeys(live, nasize)) {
      assert on[i].key in NodeKeys(on);
    }
    forall i | nasize <= i < |oa| && oa[i] != Nil ensures Int(i + 1) in OutKeys(live, nasize) {
      assert Int(i + 1) in ArrayKeys(oa);
    }
  }

  function Min(a: int, b: int): int {
    if a < b then a else b
  }

  ghost function OneInt(key: Value): set<int> {
    if InArray(key, MAXASIZE) then {key.i} else {}
  }

  /** Cell `k` of the array part, counted from 1, has a value. */
  predicate Filled(a: seq<Value>, k: int) {
    1 <= k <= |a| && a[k - 1] != Nil
  }

  /** Integer keys of the array cells after `from` and up to `n`. */
  ghost function CellInts(a: seq<Value>, from: nat, n: nat): set<int> {
    set k | from < k <= n && Filled(a, k)
  }

  lemma CountStep(a: seq<Value>, from: nat, i: nat)
    requires from < i <= |a|
    ensures |CellInts(a, from, i)| == |CellInts(a, from, i - 1)| + if a[i - 1] != Nil then 1 else 0
  {
    assert CellInts(a, from, i) == CellInts(a, from, i - 1) + if Filled(a, i) then {i as int} else {};
  }

  /** The cells after `from` all fall in slice `lg`. */
  lemma OneSlice(a: seq<Value>, lg: nat, from: nat, n: nat, i: nat)
    requires from == Min(SliceStart(lg), |a|) && from <= n <= |a| && n <= Pow2(lg)
    ensures |Slice(CellInts(a, 0, n), i)| ==
            |Slice(CellInts(a, 0, from), i)| + if i == lg then |CellInts(a, from, n)| else 0
  {
    var before, added, after := CellInts(a, 0, from), CellInts(a, from, n), CellInts(a, 0, n);
    if i == lg {
      assert Slice(before, i) == {};
      assert Slice(after, i) == added;
    } else {
      forall k | k in added ensures !(SliceStart(i) < k <= Pow2(i)) {
        if SliceStart(i) < k <= Pow2(i) { SliceUnique(k, i, lg); }
      }
      assert after == before + added;
      assert Slice(after, i) == Slice(before, i);
    }
  }

  /** Counting a whole slice of the array part at once. */
  lemma AddSlice(nums: seq<nat>, a: seq<Value>, lg: nat, from: nat, n: nat)
    requires Counts(nums, CellInts(a, 0, from)) && lg < |nums| && |a| <= MAXASIZE
    requires from == Min(SliceStart(lg), |a|) && from <= n <= |a| && n <= Pow2(lg)
    ensures Counts(nums[lg := nums[lg] + |CellInts(a, from, n)|], CellInts(a, 0, n))
    ensures |CellInts(a, 0, n)| == |CellInts(a, 0, from)| + |CellInts(a, from, n)|
  {
    assert CellInts(a, 0, n) == CellInts(a, 0, from) + CellInts(a, from, n);
    forall i | 0 <= i < |nums|
      ensures nums[lg := nums[lg] + |CellInts(a, from, n)|][i] == |Slice(CellInts(a, 0, n), i)|
    {
      OneSlice(a, lg, from, n, i);
    }
  }

  lemma NodeKeysStep(ns: seq<Node>, i: nat)
    requires i < |ns| && DistinctKeys(ns) && (ns[i].key == Nil ==> ns[i].val == Nil)
    ensures NodeKeys(ns[i..]) == NodeKeys(ns[i + 1..]) + if ns[i].val != Nil then {ns[i].key} else {}
    ensures ns[i].val != Nil ==> ns[i].key !in NodeKeys(ns[i + 1..])
  {
    assert ns[i..] == [ns[i]] + ns[i + 1..];
    NodeKeysCons(ns[i], ns[i + 1..]);
    SuffixDistinct(ns, i + 1);
  }

  lemma NodeKeysCons(n: Node, ns: seq<Node>)
    ensures NodeKeys([n] + ns) == NodeKeys(ns) + if n.val != Nil then {n.key} else {}
  {
    var all := [n] + ns;
    forall k | k in NodeKeys(ns) ensures k in NodeKeys(all) {
      var i :| 0 <= i < |ns| && ns[i].val != Nil && ns[i].key == k;
      assert all[i + 1] == ns[i];
    }
    assert n.val != Nil ==> all[0].key in NodeKeys(all);
  }

  lemma {:induction false} NodeKeysFew(ns: seq<Node>)
    ensures |NodeKeys(ns)| <= |ns|
  {
    if ns != [] {
      assert ns == [ns[0]] + ns[1..];
      NodeKeysCons(ns[0], ns[1..]);
      NodeKeysFew(ns[1..]);
    }
  }

  /** Keys left to the hash part by a larger array part fit the nodes there are. */
  lemma NodesSuffice(arr: seq<Value>, ns: seq<Node>, nasize: nat)
    requires |arr| <= nasize
    ensures |OutKeys(LiveKeys(arr, ns), nasize)| <= |ns|
    ensures ns == [EMPTY_NODE] ==> OutKeys(LiveKeys(arr, ns), nasize) == {}
  {
    NodeKeysFew(ns);
    SubsetSize(OutKeys(LiveKeys(arr, ns), nasize), NodeKeys(ns));
  }

  lemma IntKeysAdd(live: set<Value>, k: Value)
    requires k !in live
    ensures IntKeys(live + {k}) == IntKeys(live) + OneInt(k)
    ensures IntKeys(live) !! OneInt(k)
    ensures |IntKeys(live + {k})| == |IntKeys(live)| + |OneInt(k)|
  {
    assert IntKeys(live + {k}) == IntKeys(live) + OneInt(k);
  }

  /** One more node counted by numusehash. */
  lemma CountedOnce(ns: seq<Node>, i: nat, keys: set<int>)
    requires i < |ns| && DistinctKeys(ns) && FreeNodesUnlinked(ns)
    requires keys !! IntKeys(NodeKeys(ns))
    ensures var before, after := NodeKeys(ns[i + 1..]), NodeKeys(ns[i..]);
            if ns[i].val == Nil then after == before else
            && (InArray(ns[i].key, MAXASIZE) ==> ns[i].key.i !in keys + IntKeys(before))
            && (keys + IntKeys(before)) + OneInt(ns[i].key) == keys + IntKeys(after)
            && |IntKeys(after)| == |IntKeys(before)| + |OneInt(ns[i].key)|
            && |after| == |before| + 1
  {
    NodeKeysStep(ns, i);
    if ns[i].val != Nil {
      assert ns[i].key in NodeKeys(ns);
      AddOutside(keys, IntKeys(NodeKeys(ns)), NodeKeys(ns[i + 1..]), ns[i].key);
    }
  }

  lemma AddOutside(keys: set<int>, apart: set<int>, before: set<Value>, key: Value)
    requires keys !! apart && key !in before
    requires InArray(key, MAXASIZE) ==> key.i in apart
    ensures InArray(key, MAXASIZE) ==> key.i !in keys + IntKeys(before)
    ensures (keys + IntKeys(before)) + OneInt(key) == keys + IntKeys(before + {key})
    ensures |IntKeys(before + {key})| == |IntKeys(before)| + |OneInt(key)|
  {
    IntKeysAdd(before, key);
  }

  lemma NoneCounted(nums: seq<nat>)
    requires |nums| == MAXABITS + 1 && forall i :: 0 <= i < |nums| ==> nums[i] == 0
    ensures Counts(nums, {})
  {
    assert forall i: nat :: Slice({}, i) == {};
  }

  ghost function IntsOf(keys: set<int>): set<Value> {
    set k | k in keys :: Int(k)
  }

  lemma AnyOf<T>(s: set<T>) returns (x: T)
    requires |s| > 0
    ensures x in s
  {
    x :| x in s;
  }

  lemma {:induction false} IntImage(keys: set<int>)
    ensures |IntsOf(keys)| == |keys|
  {
    if |keys| > 0 {
      var k := AnyOf(keys);
      IntImage(keys - {k});
      assert IntsOf(keys) == IntsOf(keys - {k}) + {Int(k)};
    } else {
      assert IntsOf(keys) == {};
    }
  }

  lemma IntKeysFew(live: set<Value>)
    ensures |IntKeys(live)| <= |live|
  {
    IntImage(IntKeys(live));
    SubsetSize(IntsOf(IntKeys(live)), live);
  }

  lemma ArrayKeysAreInts(arr: seq<Value>)
    ensures ArrayKeys(arr) == IntsOf(CellInts(arr, 0, |arr|))
    ensures |arr| <= MAXASIZE ==> IntKeys(ArrayKeys(arr)) == CellInts(arr, 0, |arr|)
  {
    forall k | k in IntsOf(CellInts(arr, 0, |arr|)) ensures k in ArrayKeys(arr) {
      assert arr[k.i - 1] != Nil;
    }
    forall k | k in CellInts(arr, 0, |arr|) && |arr| <= MAXASIZE ensures k in IntKeys(ArrayKeys(arr)) {
      assert Int(k) in ArrayKeys(arr);
    }
  }

  lemma NodeKeysApart(arr: seq<Value>, ns: seq<Node>)
    requires Separate(ns, |arr|) && |arr| <= MAXASIZE
    ensures ArrayKeys(arr) !! NodeKeys(ns) && CellInts(arr, 0, |arr|) !! IntKeys(NodeKeys(ns))
  {
  }

  lemma NotLive(arr: seq<Value>, ns: seq<Node>, ek: Value)
    requires !InArray(ek, |arr|) && !HasKey(ns, ek)
    ensures ek !in LiveKeys(arr, ns)
  {
  }

  /** How the counts of a rehash add up. */
  lemma KeyCounts(arr: seq<Value>, ns: seq<Node>)
    requires Separate(ns, |arr|) && |arr| <= MAXASIZE
    ensures var a, live, nodes := CellInts(arr, 0, |arr|), LiveKeys(arr, ns), NodeKeys(ns);
            && |live| == |a| + |nodes|
            && a + IntKeys(nodes) == IntKeys(live)
            && |IntKeys(live)| == |a| + |IntKeys(nodes)|
  {
    var a, nodes := CellInts(arr, 0, |arr|), NodeKeys(ns);
    ArrayKeysAreInts(arr);
    NodeKeysApart(arr, ns);
    IntImage(a);
    assert IntKeys(ArrayKeys(arr) + nodes) == IntKeys(ArrayKeys(arr)) + IntKeys(nodes);
  }

  /** The new hash part gets one node for every key left to it, the coming key
      included. */
  lemma SizesFit(live: set<Value>, ek: Value, asize: nat)
    requires ek !in live && asize <= MAXASIZE
    ensures var keys := IntKeys(live + {ek});
            |OutKeys(live, asize)| + (if InArray(ek, asize) then 0 else 1) == |live| + 1 - |UpTo(keys, asize)|
  {
    var all, keys := live + {ek}, IntKeys(live + {ek});
    var inside := set k | k in all && InArray(k, asize);
    assert inside == IntsOf(UpTo(keys, asize));
    IntImage(UpTo(keys, asize));
    assert all == inside + OutKeys(all, asize);
    assert inside !! OutKeys(all, asize);
    assert OutKeys(all, asize) == OutKeys(live, asize) + if InArray(ek, asize) then {} else {ek};
  }
}
