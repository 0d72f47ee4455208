/** The hash part of a table: an array of nodes threaded by relative `next`
    offsets (src/ltable.c). Everything here is about snapshots of that array. */
module HashNodes {
  import opened LuaValues

  /** `next` is relative to the node itself; 0 ends the chain. */
  datatype Node = Node(key: Value, val: Value, next: int)

  const EMPTY_NODE: Node := Node(Nil, Nil, 0)

  /** (n)|1, the odd modulus used for keys whose hashes have many factors of 2. */
  function OrOne(n: nat): (r: nat)
    ensures r >= 1 && n <= r <= n + 1 && r % 2 == 1
  {
    if n % 2 == 0 then n + 1 else n
  }

  /** Position where the hash of a key sends it. */
  function MainPosition(hash: Value -> nat, size: nat, key: Value): (p: nat)
    requires size > 0
    ensures p < size
  {
    match key
    case Int(i) => i % size
    case Bool(b) => (if b then 1 else 0) % size
    case ShortStr(_) => hash(key) % size
    case LongStr(_) => hash(key) % size
    case _ => hash(key) % OrOne(size - 1)
  }

  /** Absolute position of the next node in the chain, or -1. */
  function Succ(ns: seq<Node>, i: nat): int
    requires i < |ns|
  {
    if ns[i].next == 0 then -1 else i + ns[i].next
  }

  /** Links stay inside the array and descend in `rank`, so chains are finite. */
  ghost predicate Ranked(ns: seq<Node>, rank: seq<nat>) {
    && |rank| == |ns|
    && (forall i :: 0 <= i < |ns| && ns[i].next != 0 ==>
          0 <= Succ(ns, i) < |ns| && rank[Succ(ns, i)] < rank[i])
  }

  /** Following links from `a` meets `b`. */
  ghost predicate Reaches(ns: seq<Node>, rank: seq<nat>, a: nat, b: nat)
    requires Ranked(ns, rank) && a < |ns|
    decreases rank[a]
  {
    a == b || (ns[a].next != 0 && Reaches(ns, rank, Succ(ns, a), b))
  }

  /** No two links lead to the same node: chains are disjoint paths. */
  ghost predicate DisjointPaths(ns: seq<Node>) {
    forall i, j :: 0 <= i < j < |ns| && ns[i].next != 0 && ns[j].next != 0 ==> Succ(ns, i) != Succ(ns, j)
  }

  /** A node without key has no link in or out, and no value. */
  ghost predicate FreeNodesUnlinked(ns: seq<Node>) {
    && (forall i :: 0 <= i < |ns| && ns[i].key == Nil ==> ns[i].next == 0 && ns[i].val == Nil)
    && (forall i :: 0 <= i < |ns| && ns[i].next != 0 && 0 <= Succ(ns, i) < |ns| ==> ns[Succ(ns, i)].key != Nil)
  }

  ghost predicate DistinctKeys(ns: seq<Node>) {
    forall i, j :: 0 <= i < j < |ns| && ns[i].key != Nil ==> ns[i].key != ns[j].key
  }

  /** Every key is reachable from its main position, and a main position that
      some key claims is held by a key that belongs there. */
  ghost predicate Placed(hash: Value -> nat, ns: seq<Node>, rank: seq<nat>, i: nat)
    requires Ranked(ns, rank) && i < |ns|
  {
    var m := MainPosition(hash, |ns|, ns[i].key);
    Reaches(ns, rank, m, i) && MainPosition(hash, |ns|, ns[m].key) == m
  }

  ghost predicate WellFormed(hash: Value -> nat, ns: seq<Node>, rank: seq<nat>) {
    && |ns| > 0
    && Ranked(ns, rank)
    && DisjointPaths(ns)
    && FreeNodesUnlinked(ns)
    && DistinctKeys(ns)
    && (forall i :: 0 <= i < |ns| && ns[i].key != Nil ==> IsKey(ns[i].key) && Placed(hash, ns, rank, i))
  }

  /** The value the hash part holds for a key; nil when it holds none. */
  ghost function HashGet(ns: seq<Node>, key: Value): Value {
    if key != Nil && exists i :: 0 <= i < |ns| && ns[i].key == key
    then var i :| 0 <= i < |ns| && ns[i].key == key; ns[i].val
    else Nil
  }

  ghost predicate HasKey(ns: seq<Node>, key: Value) {
    exists i :: 0 <= i < |ns| && ns[i].key == key
  }

  ghost function KeySet(ns: seq<Node>): set<Value> {
    set i | 0 <= i < |ns| && ns[i].key != Nil :: ns[i].key
  }

  /** `n` occupied nodes hold at least `n` keys, so a part with fewer keys than
      nodes still has a free node. */
  lemma {:induction false} FreeNodeExists(ns: seq<Node>)
    requires DistinctKeys(ns)
    requires |KeySet(ns)| < |ns|
    ensures exists i :: 0 <= i < |ns| && ns[i].key == Nil
  {
    if forall i :: 0 <= i < |ns| ==> ns[i].key != Nil {
      FullKeySet(ns);
    }
  }

  lemma {:induction false} FullKeySet(ns: seq<Node>)
    requires DistinctKeys(ns)
    requires forall i :: 0 <= i < |ns| ==> ns[i].key != Nil
    ensures |KeySet(ns)| == |ns|
  {
    if ns != [] {
      var init := ns[..|ns| - 1];
      FullKeySet(init);
      assert KeySet(ns) == KeySet(init) + {ns[|ns| - 1].key};
    } else {
      assert KeySet(ns) == {};
    }
  }

  // ---- The three ways a new key gets its node ----

  /** The main position has no value: take it over, links and all. */
  function TakeMain(ns: seq<Node>, mp: nat, key: Value): seq<Node>
    requires mp < |ns|
  {
    ns[mp := Node(key, ns[mp].val, ns[mp].next)]
  }

  /** The node at `mp` is a guest: move it to the free node `f`, relink its
      predecessor `prev`, and give `mp` to the new key. */
  function MoveGuest(ns: seq<Node>, prev: nat, mp: nat, f: nat, key: Value): seq<Node>
    requires prev < |ns| && mp < |ns| && f < |ns|
  {
    ns[prev := Node(ns[prev].key, ns[prev].val, f - prev)]
      [f := Node(ns[mp].key, ns[mp].val, if ns[mp].next == 0 then 0 else ns[mp].next + (mp - f))]
      [mp := Node(key, Nil, 0)]
  }

  /** The node at `mp` is at home: the new key goes to `f`, second in the chain. */
  function ChainAfter(ns: seq<Node>, mp: nat, f: nat, key: Value): seq<Node>
    requires mp < |ns| && f < |ns|
  {
    ns[f := Node(key, ns[f].val, if ns[mp].next == 0 then 0 else mp + ns[mp].next - f)]
      [mp := Node(ns[mp].key, ns[mp].val, f - mp)]
  }

  /** Ranks after `f` has been put behind `mp`. */
  ghost function RankAfter(rank: seq<nat>, mp: nat, f: nat): seq<nat>
    requires mp < |rank|
  {
    seq(|rank|, i requires 0 <= i < |rank| =>
      if i == f then rank[mp] else if rank[i] >= rank[mp] then rank[i] + 1 else rank[i])
  }

  lemma {:induction false} ReachesSameLinks(ns: seq<Node>, ns': seq<Node>, rank: seq<nat>, a: nat, b: nat)
    requires Ranked(ns, rank) && Ranked(ns', rank) && a < |ns|
    requires forall i :: 0 <= i < |ns| ==> ns[i].next == ns'[i].next
    ensures Reaches(ns, rank, a, b) == Reaches(ns', rank, a, b)
    decreases rank[a]
  {
    if a != b && ns[a].next != 0 {
      ReachesSameLinks(ns, ns', rank, Succ(ns, a), b);
    }
  }

  /** Characterises HashGet by a witness, for either outcome. */
  lemma HashGetIs(ns: seq<Node>, k: Value, i: int)
    requires DistinctKeys(ns) && k != Nil
    requires (0 <= i < |ns| && ns[i].key == k) || !HasKey(ns, k)
    ensures HashGet(ns, k) == if 0 <= i < |ns| && ns[i].key == k then ns[i].val else Nil
  {
  }

  lemma TakeMainDistinct(ns: seq<Node>, mp: nat, key: Value)
    requires DistinctKeys(ns) && mp < |ns| && !HasKey(ns, key) && key != Nil
    ensures DistinctKeys(TakeMain(ns, mp, key))
  {
  }

  lemma TakeMainContents(ns: seq<Node>, mp: nat, key: Value, k: Value)
    requires DistinctKeys(ns) && mp < |ns| && ns[mp].val == Nil && !HasKey(ns, key) && key != Nil
    ensures HashGet(TakeMain(ns, mp, key), k) == HashGet(ns, k)
  {
    var ns' := TakeMain(ns, mp, key);
    TakeMainDistinct(ns, mp, key);
    if k != Nil {
      if i :| 0 <= i < |ns| && ns[i].key == k {
        HashGetIs(ns, k, i);
        if i == mp {
          assert !HasKey(ns', k);
          HashGetIs(ns', k, -1);
        } else {
          assert ns'[i] == ns[i];
          HashGetIs(ns', k, i);
        }
      } else {
        HashGetIs(ns, k, -1);
        if k == key {
          HashGetIs(ns', k, mp);
        } else {
          assert !HasKey(ns', k);
          HashGetIs(ns', k, -1);
        }
      }
    }
  }

  lemma {:induction false} TakeMainPlaced(hash: Value -> nat, ns: seq<Node>, rank: seq<nat>, mp: nat, key: Value,
                                          i: nat)
    requires |ns| > 0 && mp == MainPosition(hash, |ns|, key)
    requires Ranked(ns, rank) && Ranked(TakeMain(ns, mp, key), rank)
    requires i < |ns| && (i == mp || Placed(hash, ns, rank, i))
    ensures Placed(hash, TakeMain(ns, mp, key), rank, i)
  {
    var ns' := TakeMain(ns, mp, key);
    var m := MainPosition(hash, |ns'|, ns'[i].key);
    ReachesSameLinks(ns, ns', rank, m, i);
  }

  lemma TakeMainLinks(ns: seq<Node>, rank: seq<nat>, mp: nat, key: Value)
    requires Ranked(ns, rank) && DisjointPaths(ns) && mp < |ns|
    ensures Ranked(TakeMain(ns, mp, key), rank) && DisjointPaths(TakeMain(ns, mp, key))
  {
    var ns' := TakeMain(ns, mp, key);
    assert forall i :: 0 <= i < |ns| ==> ns'[i].next == ns[i].next && Succ(ns', i) == Succ(ns, i);
  }

  lemma TakeMainFree(ns: seq<Node>, mp: nat, key: Value)
    requires FreeNodesUnlinked(ns) && mp < |ns| && key != Nil
    ensures FreeNodesUnlinked(TakeMain(ns, mp, key))
  {
    var ns' := TakeMain(ns, mp, key);
    assert forall i :: 0 <= i < |ns| ==> ns'[i].next == ns[i].next && Succ(ns', i) == Succ(ns, i);
  }

  lemma TakeMainKeeps(hash: Value -> nat, ns: seq<Node>, rank: seq<nat>, key: Value)
    requires WellFormed(hash, ns, rank) && IsKey(key) && !HasKey(ns, key)
    requires ns[MainPosition(hash, |ns|, key)].val == Nil
    ensures WellFormed(hash, TakeMain(ns, MainPosition(hash, |ns|, key), key), rank)
  {
    var mp := MainPosition(hash, |ns|, key);
    var ns' := TakeMain(ns, mp, key);
    TakeMainLinks(ns, rank, mp, key);
    TakeMainDistinct(ns, mp, key);
    TakeMainFree(ns, mp, key);
    forall i | 0 <= i < |ns'| && ns'[i].key != Nil ensures IsKey(ns'[i].key) && Placed(hash, ns', rank, i) {
      TakeMainPlaced(hash, ns, rank, mp, key, i);
    }
  }

  // ---- Moving a guest out of the new key's main position ----

  /** `prev` is the node before `mp`, and `f` is free. */
  ghost predicate CanMove(ns: seq<Node>, rank: seq<nat>, prev: nat, mp: nat, f: nat) {
    && Ranked(ns, rank) && DisjointPaths(ns) && FreeNodesUnlinked(ns)
    && prev < |ns| && mp < |ns| && f < |ns|
    && ns[prev].next != 0 && Succ(ns, prev) == mp && ns[f].key == Nil
  }

  lemma MoveGuestSucc(ns: seq<Node>, rank: seq<nat>, prev: nat, mp: nat, f: nat, key: Value, i: nat)
    requires CanMove(ns, rank, prev, mp, f) && i < |ns|
    ensures prev != mp && f != mp && f != prev
    ensures Succ(MoveGuest(ns, prev, mp, f, key), i) ==
            if i == prev then f else if i == f then Succ(ns, mp) else if i == mp then -1 else Succ(ns, i)
    ensures i != prev && ns[i].next != 0 ==> Succ(ns, i) != mp
    ensures ns[i].next != 0 ==> Succ(ns, i) != f
  {
  }

  lemma MoveGuestLinks(ns: seq<Node>, rank: seq<nat>, prev: nat, mp: nat, f: nat, key: Value)
    requires CanMove(ns, rank, prev, mp, f)
    ensures Ranked(MoveGuest(ns, prev, mp, f, key), rank[f := rank[mp]])
    ensures DisjointPaths(MoveGuest(ns, prev, mp, f, key))
  {
    var ns' := MoveGuest(ns, prev, mp, f, key);
    var rank' := rank[f := rank[mp]];
    forall i | 0 <= i < |ns'| && ns'[i].next != 0
      ensures 0 <= Succ(ns', i) < |ns'| && rank'[Succ(ns', i)] < rank'[i]
    {
      MoveGuestSucc(ns, rank, prev, mp, f, key, i);
    }
    forall i, j | 0 <= i < j < |ns'| && ns'[i].next != 0 && ns'[j].next != 0
      ensures Succ(ns', i) != Succ(ns', j)
    {
      MoveGuestSucc(ns, rank, prev, mp, f, key, i);
      MoveGuestSucc(ns, rank, prev, mp, f, key, j);
    }
  }

  lemma MoveGuestFree(ns: seq<Node>, rank: seq<nat>, prev: nat, mp: nat, f: nat, key: Value)
    requires CanMove(ns, rank, prev, mp, f) && key != Nil
    ensures FreeNodesUnlinked(MoveGuest(ns, prev, mp, f, key))
  {
    var ns' := MoveGuest(ns, prev, mp, f, key);
    assert ns[mp].key != Nil && ns[prev].key != Nil;
    forall i | 0 <= i < |ns'| && ns'[i].next != 0 && 0 <= Succ(ns', i) < |ns'|
      ensures ns'[Succ(ns', i)].key != Nil
    {
      MoveGuestSucc(ns, rank, prev, mp, f, key, i);
    }
  }

  lemma MoveGuestContents(ns: seq<Node>, rank: seq<nat>, prev: nat, mp: nat, f: nat, key: Value)
    requires CanMove(ns, rank, prev, mp, f) && DistinctKeys(ns) && !HasKey(ns, key) && key != Nil
    ensures DistinctKeys(MoveGuest(ns, prev, mp, f, key))
    ensures KeySet(MoveGuest(ns, prev, mp, f, key)) == KeySet(ns) + {key}
    ensures forall k :: k != Nil ==> HashGet(MoveGuest(ns, prev, mp, f, key), k) == HashGet(ns, k)
  {
    var ns' := MoveGuest(ns, prev, mp, f, key);
    MoveGuestSucc(ns, rank, prev, mp, f, key, mp);
    EntriesMoved(ns, ns', mp, key, i => if i == mp then f else i, j => if j == f then mp else j);
  }

  /** `to` carries every entry of `ns` over to `ns'`, `from` carries it back, and
      the only other entry of `ns'` is the new key at `at`, still without value. */
  ghost predicate Carries(ns: seq<Node>, ns': seq<Node>, at: nat, to: nat -> nat, from: nat -> nat) {
    && |ns| == |ns'| && at < |ns|
    && (forall i: nat :: i < |ns| && ns[i].key != Nil ==>
          to(i) < |ns| && ns'[to(i)].key == ns[i].key && ns'[to(i)].val == ns[i].val)
    && (forall j: nat :: j < |ns| && j != at && ns'[j].key != Nil ==>
          from(j) < |ns| && ns[from(j)].key == ns'[j].key && to(from(j)) == j)
  }

  lemma EntriesMoved(ns: seq<Node>, ns': seq<Node>, at: nat, key: Value, to: nat -> nat, from: nat -> nat)
    requires DistinctKeys(ns) && !HasKey(ns, key) && key != Nil
    requires Carries(ns, ns', at, to, from) && ns'[at].key == key && ns'[at].val == Nil
    ensures DistinctKeys(ns')
    ensures KeySet(ns') == KeySet(ns) + {key}
    ensures forall k :: k != Nil ==> HashGet(ns', k) == HashGet(ns, k)
  {
    forall i, j | 0 <= i < j < |ns'| && ns'[i].key != Nil ensures ns'[i].key != ns'[j].key {
      assert i != at ==> ns[from(i)].key == ns'[i].key;
      assert j != at && ns'[j].key != Nil ==> ns[from(j)].key == ns'[j].key;
    }
    assert KeySet(ns') == KeySet(ns) + {key} by {
      forall k | k in KeySet(ns) ensures k in KeySet(ns') {
        var i :| 0 <= i < |ns| && ns[i].key == k;
        assert ns'[to(i)].key == k;
      }
    }
    forall k | k != Nil ensures HashGet(ns', k) == HashGet(ns, k) {
      EntryMoved(ns, ns', at, key, to, from, k);
    }
  }

  lemma EntryMoved(ns: seq<Node>, ns': seq<Node>, at: nat, key: Value, to: nat -> nat, from: nat -> nat, k: Value)
    requires DistinctKeys(ns) && DistinctKeys(ns') && !HasKey(ns, key) && k != Nil
    requires Carries(ns, ns', at, to, from) && ns'[at].key == key && ns'[at].val == Nil
    ensures HashGet(ns', k) == HashGet(ns, k)
  {
    if k == key {
      HashGetIs(ns', k, at);
      HashGetIs(ns, k, -1);
    } else if i: nat :| i < |ns| && ns[i].key == k {
      HashGetIs(ns, k, i);
      HashGetIs(ns', k, to(i));
    } else {
      assert !HasKey(ns', k);
      HashGetIs(ns, k, -1);
      HashGetIs(ns', k, -1);
    }
  }

  /** Where a node went when the guest at `mp` moved to `f`. */
  function Moved(mp: nat, f: nat, a: nat): nat {
    if a == mp then f else a
  }

  lemma {:induction false} MoveGuestReaches(ns: seq<Node>, rank: seq<nat>, prev: nat, mp: nat, f: nat, key: Value,
                                            a: nat, b: nat)
    requires CanMove(ns, rank, prev, mp, f) && a < |ns| && a != f
    requires Ranked(MoveGuest(ns, prev, mp, f, key), rank[f := rank[mp]])
    requires Reaches(ns, rank, a, b)
    ensures Reaches(MoveGuest(ns, prev, mp, f, key), rank[f := rank[mp]], Moved(mp, f, a), Moved(mp, f, b))
    decreases rank[a]
  {
    if a != b {
      MoveGuestSucc(ns, rank, prev, mp, f, key, a);
      MoveGuestSucc(ns, rank, prev, mp, f, key, Moved(mp, f, a));
      MoveGuestReaches(ns, rank, prev, mp, f, key, Succ(ns, a), b);
    }
  }

  /** A node that reaches another one has a link, hence a key. */
  lemma ReachesHasKey(ns: seq<Node>, rank: seq<nat>, a: nat, b: nat)
    requires Ranked(ns, rank) && FreeNodesUnlinked(ns) && a < |ns| && b < |ns|
    requires Reaches(ns, rank, a, b) && ns[b].key != Nil
    ensures ns[a].key != Nil
  {
  }

  lemma MoveGuestPlaced(hash: Value -> nat, ns: seq<Node>, rank: seq<nat>, prev: nat, mp: nat, f: nat, key: Value,
                        i: nat)
    requires CanMove(ns, rank, prev, mp, f) && mp == MainPosition(hash, |ns|, key)
    requires Ranked(MoveGuest(ns, prev, mp, f, key), rank[f := rank[mp]])
    requires MainPosition(hash, |ns|, ns[mp].key) != mp
    requires i < |ns| && (i == mp || i == f || ns[i].key != Nil)
    requires var s := if i == f then mp else i; ns[s].key != Nil && Placed(hash, ns, rank, s)
    ensures Placed(hash, MoveGuest(ns, prev, mp, f, key), rank[f := rank[mp]], i)
  {
    if i != mp {
      var s := if i == f then mp else i;
      var m := MainPosition(hash, |ns|, ns[s].key);
      ReachesHasKey(ns, rank, m, s);
      MoveGuestReaches(ns, rank, prev, mp, f, key, m, s);
    }
  }

  lemma MoveGuestKeeps(hash: Value -> nat, ns: seq<Node>, rank: seq<nat>, prev: nat, f: nat, key: Value)
    requires WellFormed(hash, ns, rank) && IsKey(key) && !HasKey(ns, key)
    requires CanMove(ns, rank, prev, MainPosition(hash, |ns|, key), f)
    requires var mp := MainPosition(hash, |ns|, key); MainPosition(hash, |ns|, ns[mp].key) != mp
    ensures WellFormed(hash, MoveGuest(ns, prev, MainPosition(hash, |ns|, key), f, key),
                       rank[f := rank[MainPosition(hash, |ns|, key)]])
  {
    var mp := MainPosition(hash, |ns|, key);
    var ns' := MoveGuest(ns, prev, mp, f, key);
    var rank' := rank[f := rank[mp]];
    MoveGuestLinks(ns, rank, prev, mp, f, key);
    MoveGuestFree(ns, rank, prev, mp, f, key);
    MoveGuestContents(ns, rank, prev, mp, f, key);
    MoveGuestSucc(ns, rank, prev, mp, f, key, mp);
    forall i | 0 <= i < |ns'| && ns'[i].key != Nil ensures IsKey(ns'[i].key) && Placed(hash, ns', rank', i) {
      MoveGuestPlaced(hash, ns, rank, prev, mp, f, key, i);
    }
  }

  // ---- Chaining the new key behind the owner of its main position ----

  /** `f` is free and `mp` is in use. */
  ghost predicate CanChain(ns: seq<Node>, rank: seq<nat>, mp: nat, f: nat) {
    && Ranked(ns, rank) && DisjointPaths(ns) && FreeNodesUnlinked(ns)
    && mp < |ns| && f < |ns| && ns[mp].key != Nil && ns[f].key == Nil
  }

  lemma ChainAfterSucc(ns: seq<Node>, rank: seq<nat>, mp: nat, f: nat, key: Value, i: nat)
    requires CanChain(ns, rank, mp, f) && i < |ns|
    ensures f != mp
    ensures Succ(ChainAfter(ns, mp, f, key), i) ==
            if i == mp then f else if i == f then Succ(ns, mp) else Succ(ns, i)
    ensures ns[i].next != 0 ==> Succ(ns, i) != f
  {
  }

  lemma ChainAfterLinks(ns: seq<Node>, rank: seq<nat>, mp: nat, f: nat, key: Value)
    requires CanChain(ns, rank, mp, f)
    ensures Ranked(ChainAfter(ns, mp, f, key), RankAfter(rank, mp, f))
    ensures DisjointPaths(ChainAfter(ns, mp, f, key))
  {
    var ns' := ChainAfter(ns, mp, f, key);
    var rank' := RankAfter(rank, mp, f);
    forall i | 0 <= i < |ns'| && ns'[i].next != 0
      ensures 0 <= Succ(ns', i) < |ns'| && rank'[Succ(ns', i)] < rank'[i]
    {
      ChainAfterSucc(ns, rank, mp, f, key, i);
    }
    forall i, j | 0 <= i < j < |ns'| && ns'[i].next != 0 && ns'[j].next != 0
      ensures Succ(ns', i) != Succ(ns', j)
    {
      ChainAfterSucc(ns, rank, mp, f, key, i);
      ChainAfterSucc(ns, rank, mp, f, key, j);
    }
  }

  lemma ChainAfterFree(ns: seq<Node>, rank: seq<nat>, mp: nat, f: nat, key: Value)
    requires CanChain(ns, rank, mp, f) && key != Nil
    ensures FreeNodesUnlinked(ChainAfter(ns, mp, f, key))
  {
    var ns' := ChainAfter(ns, mp, f, key);
    forall i | 0 <= i < |ns'| && ns'[i].next != 0 && 0 <= Succ(ns', i) < |ns'|
      ensures ns'[Succ(ns', i)].key != Nil
    {
      ChainAfterSucc(ns, rank, mp, f, key, i);
    }
  }

  lemma ChainAfterContents(ns: seq<Node>, rank: seq<nat>, mp: nat, f: nat, key: Value)
    requires CanChain(ns, rank, mp, f) && DistinctKeys(ns) && !HasKey(ns, key) && key != Nil
    ensures DistinctKeys(ChainAfter(ns, mp, f, key))
    ensures KeySet(ChainAfter(ns, mp, f, key)) == KeySet(ns) + {key}
    ensures forall k :: k != Nil ==> HashGet(ChainAfter(ns, mp, f, key), k) == HashGet(ns, k)
  {
    var ns' := ChainAfter(ns, mp, f, key);
    assert ns'[f].key == key && ns'[f].val == Nil;
    EntriesMoved(ns, ns', f, key, i => i, j => j);
  }

  lemma {:induction false} ChainAfterReaches(ns: seq<Node>, rank: seq<nat>, mp: nat, f: nat, key: Value, a: nat, b: nat)
    requires CanChain(ns, rank, mp, f) && a < |ns| && a != f
    requires Ranked(ChainAfter(ns, mp, f, key), RankAfter(rank, mp, f))
    requires Reaches(ns, rank, a, b)
    ensures Reaches(ChainAfter(ns, mp, f, key), RankAfter(rank, mp, f), a, b)
    decreases rank[a]
  {
    if a != b {
      var ns', rank' := ChainAfter(ns, mp, f, key), RankAfter(rank, mp, f);
      ChainAfterSucc(ns, rank, mp, f, key, a);
      ChainAfterSucc(ns, rank, mp, f, key, f);
      ChainAfterReaches(ns, rank, mp, f, key, Succ(ns, a), b);
      assert a == mp ==> Reaches(ns', rank', f, b);
    }
  }

  lemma ChainAfterPlaced(hash: Value -> nat, ns: seq<Node>, rank: seq<nat>, mp: nat, f: nat, key: Value, i: nat)
    requires CanChain(ns, rank, mp, f) && mp == MainPosition(hash, |ns|, key)
    requires Ranked(ChainAfter(ns, mp, f, key), RankAfter(rank, mp, f))
    requires MainPosition(hash, |ns|, ns[mp].key) == mp
    requires i < |ns| && (i == f || (ns[i].key != Nil && Placed(hash, ns, rank, i)))
    ensures Placed(hash, ChainAfter(ns, mp, f, key), RankAfter(rank, mp, f), i)
  {
    var ns', rank' := ChainAfter(ns, mp, f, key), RankAfter(rank, mp, f);
    if i == f {
      ChainAfterSucc(ns, rank, mp, f, key, mp);
      assert Reaches(ns', rank', f, f);
    } else {
      var m := MainPosition(hash, |ns|, ns[i].key);
      ReachesHasKey(ns, rank, m, i);
      ChainAfterReaches(ns, rank, mp, f, key, m, i);
    }
  }

  lemma ChainAfterKeeps(hash: Value -> nat, ns: seq<Node>, rank: seq<nat>, f: nat, key: Value)
    requires WellFormed(hash, ns, rank) && IsKey(key) && !HasKey(ns, key)
    requires CanChain(ns, rank, MainPosition(hash, |ns|, key), f)
    requires var mp := MainPosition(hash, |ns|, key); MainPosition(hash, |ns|, ns[mp].key) == mp
    ensures WellFormed(hash, ChainAfter(ns, MainPosition(hash, |ns|, key), f, key),
                       RankAfter(rank, MainPosition(hash, |ns|, key), f))
  {
    var mp := MainPosition(hash, |ns|, key);
    var ns' := ChainAfter(ns, mp, f, key);
    var rank' := RankAfter(rank, mp, f);
    ChainAfterLinks(ns, rank, mp, f, key);
    ChainAfterFree(ns, rank, mp, f, key);
    ChainAfterContents(ns, rank, mp, f, key);
    forall i | 0 <= i < |ns'| && ns'[i].key != Nil ensures IsKey(ns'[i].key) && Placed(hash, ns', rank', i) {
      ChainAfterPlaced(hash, ns, rank, mp, f, key, i);
    }
  }

  /** Storing a value in a node changes what one key maps to and nothing else. */
  lemma StoreKeeps(hash: Value -> nat, ns: seq<Node>, rank: seq<nat>, n: nat, v: Value)
    requires WellFormed(hash, ns, rank) && n < |ns| && ns[n].key != Nil
    ensures WellFormed(hash, ns[n := Node(ns[n].key, v, ns[n].next)], rank)
  {
    var ns' := ns[n := Node(ns[n].key, v, ns[n].next)];
    StoreLinks(ns, rank, n, v);
    forall i | 0 <= i < |ns'| && ns'[i].key != Nil ensures IsKey(ns'[i].key) && Placed(hash, ns', rank, i) {
      assert Placed(hash, ns, rank, i);
      ReachesSameLinks(ns, ns', rank, MainPosition(hash, |ns|, ns[i].key), i);
    }
  }

  lemma StoreLinks(ns: seq<Node>, rank: seq<nat>, n: nat, v: Value)
    requires Ranked(ns, rank) && DisjointPaths(ns) && FreeNodesUnlinked(ns) && DistinctKeys(ns)
    requires n < |ns| && ns[n].key != Nil
    ensures var ns' := ns[n := Node(ns[n].key, v, ns[n].next)];
            Ranked(ns', rank) && DisjointPaths(ns') && FreeNodesUnlinked(ns') && DistinctKeys(ns')
  {
    var ns' := ns[n := Node(ns[n].key, v, ns[n].next)];
    assert forall i :: 0 <= i < |ns| ==>
      ns'[i].key == ns[i].key && ns'[i].next == ns[i].next && Succ(ns', i) == Succ(ns, i);
  }

  lemma StoreContents(ns: seq<Node>, n: nat, v: Value)
    requires DistinctKeys(ns) && n < |ns| && ns[n].key != Nil
    ensures var ns' := ns[n := Node(ns[n].key, v, ns[n].next)];
            KeySet(ns') == KeySet(ns) &&
            forall k :: HashGet(ns', k) == if k == ns[n].key then v else HashGet(ns, k)
  {
    var ns' := ns[n := Node(ns[n].key, v, ns[n].next)];
    assert forall i :: 0 <= i < |ns| ==> ns'[i].key == ns[i].key;
    assert DistinctKeys(ns');
    forall k ensures HashGet(ns', k) == if k == ns[n].key then v else HashGet(ns, k) {
      if k != Nil {
        if i :| 0 <= i < |ns| && ns[i].key == k {
          HashGetIs(ns, k, i);
          HashGetIs(ns', k, i);
        } else {
          assert !HasKey(ns', k);
        }
      }
    }
  }
}
