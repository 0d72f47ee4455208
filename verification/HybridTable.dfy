/** Tables with an array part and a hash part (src/ltable.c). */
module HybridTable {
  import opened LuaValues
  import opened HashNodes
  import opened Powers
  import opened ArraySizes
  import opened TableContents

  /** What a `TValue *` returned by a search points at. */
  datatype Slot = ArraySlot(i: nat) | NodeSlot(n: nat) | NilObject

  datatype Result<+T> = Ok(value: T) | IndexIsNil | IndexIsNaN

  class Table {
    const hash: Value -> nat
    var arr: array<Value>
    var node: array<Node>
    var lastfree: int  // -1 is NULL: the hash part is the shared dummy node
    ghost var rank: seq<nat>

    ghost predicate Valid()
      reads this, arr, node
    {
      && WellFormed(hash, node[..], rank)
      && Separate(node[..], arr.Length)
      && IsPow2(node.Length) && node.Length <= MAX_KEYS && arr.Length <= MAXASIZE
      && -1 <= lastfree <= node.Length
      && (lastfree == -1 ==> node[..] == [EMPTY_NODE])
      && (lastfree != -1 ==> FullFrom(node[..], lastfree))
    }

    ghost function Get(k: Value): Value
      reads this, arr, node
    {
      Lookup(arr[..], node[..], k)
    }

    ghost function Live(): set<Value>
      reads this, arr, node
    {
      LiveKeys(arr[..], node[..])
    }

    /** `s` is where the stored key `k` lives. */
    ghost predicate IsSlot(k: Value, s: Slot)
      reads this, arr, node
    {
      match s
      case ArraySlot(i) => InArray(k, arr.Length) && k.i == i + 1
      case NodeSlot(n) => n < node.Length && node[n].key == k && k != Nil
      case NilObject => !InArray(k, arr.Length) && !HasKey(node[..], k)
    }

    /** No stored key maps to anything else than it did. */
    twostate predicate SameContents()
      reads this, arr, node
    {
      forall q :: q != Nil ==> Get(q) == old(Get(q))
    }

    /** A new key can be inserted without growing the table. */
    ghost predicate HasRoom()
      reads this, node
    {
      HasFree(node[..], lastfree)
    }

    /** luaH_getint */
    method GetInt(key: int) returns (s: Slot)
      requires Valid()
      ensures IsSlot(Int(key), s)
    {
      if 1 <= key <= arr.Length {
        return ArraySlot(key - 1);
      }
      var n := MainPosition(hash, node.Length, Int(key));
      AheadAtMain(hash, node[..], rank, Int(key));
      while true
        invariant 0 <= n < node.Length && Ahead(node[..], rank, Int(key), n)
        decreases rank[n]
      {
        if node[n].key.Int? && node[n].key.i == key {
          return NodeSlot(n);
        }
        AheadStep(node[..], rank, Int(key), n);
        if node[n].next == 0 {
          return NilObject;
        }
        n := n + node[n].next;
      }
    }

    /** luaH_getshortstr */
    method GetShortStr(key: Value) returns (s: Slot)
      requires Valid() && key.ShortStr?
      ensures IsSlot(key, s)
    {
      var n := MainPosition(hash, node.Length, key);
      AheadAtMain(hash, node[..], rank, key);
      while true
        invariant 0 <= n < node.Length && Ahead(node[..], rank, key, n)
        decreases rank[n]
      {
        if node[n].key.ShortStr? && node[n].key.s == key.s {
          return NodeSlot(n);
        }
        AheadStep(node[..], rank, key, n);
        if node[n].next == 0 {
          return NilObject;
        }
        n := n + node[n].next;
      }
    }

    /** getgeneric: any key but nil, integers and floats with integral values. */
    method GetGeneric(key: Value) returns (s: Slot)
      requires Valid() && key != Nil && !key.Int? && Normal(key) == key
      ensures IsSlot(key, s)
    {
      var n := MainPosition(hash, node.Length, key);
      AheadAtMain(hash, node[..], rank, key);
      while true
        invariant 0 <= n < node.Length && Ahead(node[..], rank, key, n)
        decreases rank[n]
      {
        var hit := RawEqualAt(n, key);
        if hit {
          return NodeSlot(n);
        }
        AheadStep(node[..], rank, key, n);
        if node[n].next == 0 {
          return NilObject;
        }
        n := n + node[n].next;
      }
    }

    /** Keys in nodes are normal and never NaN, so raw equality is identity. */
    method RawEqualAt(n: nat, key: Value) returns (same: bool)
      requires Valid() && n < node.Length && Normal(key) == key && key != Nil
      ensures same <==> node[n].key == key
    {
      assert node[..][n] == node[n];
      same := RawEqual(node[n].key, key);
    }

    /** luaH_get, the main search function */
    method Find(key: Value) returns (s: Slot)
      requires Valid()
      ensures key == Nil ==> s == NilObject
      ensures key != Nil ==> IsSlot(Normal(key), s)
    {
      if key.ShortStr? {
        s := GetShortStr(key);
      } else if key.Int? {
        s := GetInt(key.i);
      } else if key.Nil? {
        s := NilObject;
      } else if key.Flt? && FloatToInteger(key.f).Some? {
        s := GetInt(FloatToInteger(key.f).value);
      } else {
        s := GetGeneric(key);
      }
    }

    /** Write through the pointer that a search or an insertion returned. */
    method Store(s: Slot, ghost k: Value, v: Value)
      requires Valid() && IsSlot(k, s) && s != NilObject
      modifies arr, node
      ensures Valid()
      ensures Get(k) == v && forall q :: q != Nil && q != k ==> Get(q) == old(Get(q))
      ensures KeySet(node[..]) == old(KeySet(node[..]))
      ensures forall i :: 0 <= i < arr.Length ==> arr[i] == old(arr[i]) || (arr[i] == v && k == Int(i + 1))
      ensures forall i :: 0 <= i < node.Length ==>
                node[i].key == old(node[i].key) &&
                  (node[i].val == old(node[i].val) || (node[i].val == v && k == node[i].key))
    {
      match s
      case ArraySlot(i) =>
        arr[i] := v;
      case NodeSlot(n) =>
        ghost var ns := node[..];
        StoreKeeps(hash, ns, rank, n, v);
        StoreContents(ns, n, v);
        StoreSeparate(ns, arr.Length, lastfree, n, v);
        node[n] := Node(node[n].key, v, node[n].next);
        assert node[..] == ns[n := Node(ns[n].key, v, ns[n].next)];
    }

    /** getfreepos: -1 when there is no free node. */
    method GetFreePos() returns (f: int)
      requires -1 <= lastfree <= node.Length
      requires lastfree != -1 ==> FullFrom(node[..], lastfree)
      modifies this`lastfree
      ensures f == -1 ==> !old(HasRoom()) && lastfree == (if old(lastfree) == -1 then -1 else 0)
      ensures f == -1 && lastfree != -1 ==> FullFrom(node[..], lastfree)
      ensures f != -1 ==> 0 <= f == lastfree < node.Length && old(lastfree) != -1 && node[f].key == Nil
      ensures f != -1 ==> FullFrom(node[..], f + 1)
    {
      if lastfree != -1 {
        while lastfree > 0
          invariant 0 <= lastfree <= old(lastfree) && FullFrom(node[..], lastfree)
        {
          lastfree := lastfree - 1;
          if node[lastfree].key == Nil {
            return lastfree;
          }
        }
      }
      return -1;
    }

    /** Move the node at `mp` to the free node `f` and give `mp` to the key. */
    method MoveOut(othern: nat, mp: nat, f: nat, key: Value)
      requires othern < node.Length && mp < node.Length && f < node.Length
      requires othern != mp && othern != f && f != mp
      modifies node
      ensures node[..] == old(MoveGuest(node[..], othern, mp, f, key))
    {
      node[othern] := Node(node[othern].key, node[othern].val, f - othern);
      node[f] := node[mp];
      if node[mp].next != 0 {
        node[f] := Node(node[f].key, node[f].val, node[f].next + (mp - f));
        node[mp] := Node(node[mp].key, node[mp].val, 0);
      }
      node[mp] := Node(node[mp].key, Nil, node[mp].next);
      node[mp] := Node(key, node[mp].val, node[mp].next);
    }

    /** Chain the free node `f` behind `mp` and give it to the key. */
    method ChainTo(mp: nat, f: nat, key: Value)
      requires mp < node.Length && f < node.Length && f != mp && node[f].next == 0
      modifies node
      ensures node[..] == old(ChainAfter(node[..], mp, f, key))
    {
      if node[mp].next != 0 {
        node[f] := Node(node[f].key, node[f].val, (mp + node[mp].next) - f);
      }
      node[mp] := Node(node[mp].key, node[mp].val, f - mp);
      node[f] := Node(key, node[f].val, node[f].next);
    }

    /** The colliding node is out of its main position `home`: it moves to `f`. */
    method EvictGuest(key: Value, mp: nat, home: nat, f: nat)
      requires WellFormed(hash, node[..], rank)
      requires IsKey(key) && !HasKey(node[..], key) && mp == MainPosition(hash, node.Length, key)
      requires CanChain(node[..], rank, mp, f) && home != mp
      requires home == MainPosition(hash, node.Length, node[mp].key) && Reaches(node[..], rank, home, mp)
      modifies node, this`rank
      ensures Inserted(hash, old(node[..]), node[..], rank, f, mp, key)
    {
      var othern := Previous(home, mp);
      MoveGuestPlacement(hash, node[..], rank, othern, f, key);
      MoveOut(othern, mp, f, key);
      rank := rank[f := rank[mp]];
    }

    /** The part of luaH_newkey that runs when the main position is taken and a
        free node has been found. */
    method Collide(key: Value, mp: nat, f: nat) returns (n: nat)
      requires WellFormed(hash, node[..], rank)
      requires IsKey(key) && !HasKey(node[..], key) && mp == MainPosition(hash, node.Length, key)
      requires f < node.Length && node[f].key == Nil && node[mp].val != Nil
      modifies node, this`rank
      ensures Inserted(hash, old(node[..]), node[..], rank, f, n, key)
    {
      var othern := MainPosition(hash, node.Length, node[mp].key);
      TakenMain(hash, node[..], rank, mp, f);
      if othern != mp {
        EvictGuest(key, mp, othern, f);
        n := mp;
      } else {
        ChainAfterPlacement(hash, node[..], rank, f, key);
        ChainTo(mp, f, key);
        rank := RankAfter(rank, mp, f);
        n := f;
      }
    }

    /** The node before `mp` in the chain that starts at `start`. */
    method Previous(start: nat, mp: nat) returns (p: nat)
      requires Ranked(node[..], rank) && start < node.Length && start != mp
      requires Reaches(node[..], rank, start, mp)
      ensures p < node.Length && node[p].next != 0 && Succ(node[..], p) == mp
    {
      p := start;
      while p + node[p].next != mp
        invariant 0 <= p < node.Length && p != mp && Reaches(node[..], rank, p, mp)
        decreases rank[p]
      {
        assert Succ(node[..], p) == p + node[p].next;
        p := p + node[p].next;
      }
    }

    /** setnodevector: an empty hash part with room for `size` keys. */
    method SetNodeVector(size: nat)
      requires size <= MAX_KEYS
      modifies this`node, this`lastfree, this`rank
      ensures fresh(node) && IsPow2(node.Length) && size <= node.Length <= MAX_KEYS
      ensures WellFormed(hash, node[..], rank)
      ensures KeySet(node[..]) == {} && forall q :: HashGet(node[..], q) == Nil
      ensures lastfree == (if size == 0 then -1 else node.Length)
      ensures size == 0 ==> node[..] == [EMPTY_NODE]
    {
      if size == 0 {
        node := new Node[1][EMPTY_NODE];
        lastfree := -1;
        assert Pow2(0) == 1;
      } else {
        var lsize := CeilLog2(size);
        HashPartFits(size, lsize);
        assert lsize <= MAXHBITS;  // no "table overflow"
        node := new Node[Pow2(lsize)](_ => EMPTY_NODE);
        lastfree := node.Length;
      }
      rank := seq(node.Length, _ => 0);
      EmptyNodesWellFormed(hash, node.Length);
      assert node[..] == seq(node.Length, _ => EMPTY_NODE);
    }

    /** setarrayvector: reallocate the array part, new cells holding nil. */
    method SetArrayVector(size: nat)
      modifies this`arr
      ensures fresh(arr) && arr.Length == size
      ensures forall i :: 0 <= i < size ==> arr[i] == if i < old(arr.Length) then old(arr[i]) else Nil
    {
      var cells := new Value[size];
      forall i | 0 <= i < size && i < arr.Length {
        cells[i] := arr[i];
      }
      var i := arr.Length;
      while i < size
        modifies cells
        invariant forall k :: 0 <= k < size && k < arr.Length ==> cells[k] == arr[k]
        invariant forall k :: arr.Length <= k < i && k < size ==> cells[k] == Nil
      {
        cells[i] := Nil;
        i := i + 1;
      }
      arr := cells;
    }

    /** The main position has no value: the key takes it over. */
    method InsertAtMain(key: Value) returns (n: nat)
      requires Valid() && IsKey(key) && IsSlot(key, NilObject) && lastfree != -1
      requires node[MainPosition(hash, node.Length, key)].val == Nil
      modifies node
      ensures Valid() && IsSlot(key, NodeSlot(n)) && SameContents()
      ensures KeySet(node[..]) <= old(KeySet(node[..])) + {key}
    {
      ghost var ns := node[..];
      n := MainPosition(hash, node.Length, key);
      TakeMainKeeps(hash, ns, rank, key);
      TakeMainKeys(ns, n, key);
      SeparateByKeys(ns, arr.Length);
      SeparateByKeys(TakeMain(ns, n, key), arr.Length);
      forall q | q != Nil ensures HashGet(TakeMain(ns, n, key), q) == HashGet(ns, q) {
        TakeMainContents(ns, n, key, q);
      }
      node[n] := Node(key, node[n].val, node[n].next);
      assert node[..] == TakeMain(ns, n, key);
    }

    /** The main position is taken and `f` is the free node just found. */
    method InsertColliding(key: Value, mp: nat, f: nat) returns (n: nat)
      requires WellFormed(hash, node[..], rank) && Separate(node[..], arr.Length)
      requires IsPow2(node.Length) && node.Length <= MAX_KEYS && arr.Length <= MAXASIZE
      requires IsKey(key) && IsSlot(key, NilObject)
      requires mp == MainPosition(hash, node.Length, key) && node[mp].val != Nil
      requires f == lastfree < node.Length && node[f].key == Nil && FullFrom(node[..], f + 1)
      modifies node, this`rank
      ensures Valid() && IsSlot(key, NodeSlot(n)) && SameContents()
      ensures KeySet(node[..]) <= old(KeySet(node[..])) + {key}
    {
      ghost var ns := node[..];
      n := Collide(key, mp, f);
      SeparateByKeys(ns, arr.Length);
      SeparateByKeys(node[..], arr.Length);
    }

    /** luaH_newkey after its key has been checked and normalised. `level` bounds
        the mutual recursion with rehash: at level 0 there is room. */
    method InsertKey(key: Value, ghost level: nat) returns (s: Slot)
      requires Valid() && IsKey(key) && IsSlot(key, NilObject)
      requires level == 0 ==> HasRoom()
      requires level > 0 ==> |Live()| < MAX_KEYS
      modifies this, arr, node
      ensures Valid() && IsSlot(key, s) && s != NilObject && SameContents()
      ensures fresh(arr) || arr == old(arr)
      ensures fresh(node) || node == old(node)
      ensures level == 0 ==> arr == old(arr) && node == old(node) && KeySet(node[..]) <= old(KeySet(node[..])) + {key}
      ensures level == 0 && lastfree == -1 ==> old(lastfree) == -1
      decreases level, 5
    {
      var mp := MainPosition(hash, node.Length, key);
      if node[mp].val != Nil || lastfree == -1 {
        var f := GetFreePos();
        if f == -1 {
          s := GrowAndInsert(key);
        } else {
          var n := InsertColliding(key, mp, f);
          s := NodeSlot(n);
        }
      } else {
        var n := InsertAtMain(key);
        s := NodeSlot(n);
      }
    }

    /** No free node: grow the table, then start over with room for the key. */
    method GrowAndInsert(key: Value) returns (s: Slot)
      requires Valid() && IsKey(key) && IsSlot(key, NilObject)
      requires |Live()| < MAX_KEYS
      modifies this, arr, node
      ensures Valid() && IsSlot(key, s) && s != NilObject && SameContents()
      ensures fresh(arr) || arr == old(arr)
      ensures fresh(node)
      decreases 1, 4
    {
      Rehash(key);
      s := FindOrInsert(key, 0);
    }

    /** luaH_set for a stored key. */
    method FindOrInsert(key: Value, ghost level: nat) returns (s: Slot)
      requires Valid() && IsKey(key)
      requires level == 0 ==> InArray(key, arr.Length) || HasRoom()
      requires level > 0 ==> |Live()| < MAX_KEYS
      modifies this, arr, node
      ensures Valid() && IsSlot(key, s) && s != NilObject && SameContents()
      ensures fresh(arr) || arr == old(arr)
      ensures fresh(node) || node == old(node)
      ensures level == 0 ==> arr == old(arr) && node == old(node) && KeySet(node[..]) <= old(KeySet(node[..])) + {key}
      ensures level == 0 && lastfree == -1 ==> old(lastfree) == -1
      ensures InArray(key, old(arr.Length)) ==> node == old(node) && node[..] == old(node[..])
      decreases level, 6
    {
      s := Find(key);
      if s == NilObject {
        s := InsertKey(key, level);
      }
    }

    /** luaH_setint; at level 0 the table has room for the key. */
    method SetInt(key: int, value: Value, ghost level: nat)
      requires Valid()
      requires level == 0 ==> InArray(Int(key), arr.Length) || HasRoom()
      requires level > 0 ==> |Live()| < MAX_KEYS
      modifies this, arr, node
      ensures Valid() && (fresh(arr) || arr == old(arr)) && (fresh(node) || node == old(node))
      ensures Get(Int(key)) == value && forall q :: q != Nil && q != Int(key) ==> Get(q) == old(Get(q))
      ensures level == 0 ==>
                arr == old(arr) && node == old(node) && KeySet(node[..]) <= old(KeySet(node[..])) + {Int(key)}
      ensures level == 0 && lastfree == -1 ==> old(lastfree) == -1
      decreases level, 7
    {
      var s := GetInt(key);
      if s == NilObject {
        s := InsertKey(Int(key), level);
      }
      Store(s, Int(key), value);
    }

    /** luaH_set plus the store of the caller, into a table that has room. */
    method SetKey(key: Value, value: Value)
      requires Valid() && IsKey(key) && (InArray(key, arr.Length) || HasRoom())
      modifies this, arr, node
      ensures Valid() && arr == old(arr) && node == old(node)
      ensures Get(key) == value && forall q :: q != Nil && q != key ==> Get(q) == old(Get(q))
      ensures KeySet(node[..]) <= old(KeySet(node[..])) + {key}
      ensures lastfree == -1 ==> old(lastfree) == -1
      decreases 0, 7
    {
      var s := FindOrInsert(key, 0);
      Store(s, key, value);
    }

    /** While entries are being put back: the table stands for `oa` and `on`, and
        its hash part holds only live keys among `out`. */
    ghost predicate Restored(oa: seq<Value>, on: seq<Node>, out: set<Value>)
      reads this, arr, node
    {
      && Valid()
      && (forall q :: q != Nil ==> Get(q) == Lookup(oa, on, q))
      && (forall k :: k in KeySet(node[..]) ==> k in out && Get(k) != Nil)
      && |out| <= node.Length
      && (lastfree == -1 ==> out == {})
    }

    /** A live key of `out` that is not back yet still fits. */
    lemma RoomFor(oa: seq<Value>, on: seq<Node>, out: set<Value>, k: Value)
      requires Restored(oa, on, out) && k in out && k != Nil && Lookup(oa, on, k) == Nil
      ensures HasRoom()
    {
      FewKeysLeaveRoom(node[..], lastfree, out, k);
    }

    /** Re-insert elements from the vanishing slice of the array part. */
    method RestoreSlice(oarr: array<Value>, ghost out: set<Value>)
      requires oarr != arr && arr.Length < oarr.Length
      requires Restored(oarr[..arr.Length], [], out)
      requires forall i :: arr.Length <= i < oarr.Length && oarr[i] != Nil ==> Int(i + 1) in out
      modifies this, arr, node
      ensures arr == old(arr) && node == old(node) && Restored(oarr[..], [], out)
      ensures lastfree == -1 ==> old(lastfree) == -1
      decreases 1, 0
    {
      ghost var oa := oarr[..];
      for i := arr.Length to oarr.Length
        invariant arr == old(arr) && node == old(node) && oarr[..] == oa
        invariant Restored(oa[..i], [], out)
        invariant lastfree == -1 ==> old(lastfree) == -1
      {
        if oarr[i] != Nil {
          RoomFor(oa[..i], [], out, Int(i + 1));
          SetInt(i + 1, oarr[i], 0);
        }
        PrefixStep(oa, i);
      }
      assert oa[..|oa|] == oa;
    }

    lemma NothingRestored(oa: seq<Value>, on: seq<Node>, from: nat, out: set<Value>)
      requires Restored(oa, [], out)
      requires from <= |on| && forall i :: from <= i < |on| ==> on[i].val == Nil
      ensures Restored(oa, on[from..], out)
    {
      NoValues(on, from);
    }

    /** Re-insert one element of the old hash part. */
    method RestoreNode(nold: array<Node>, j: nat, ghost oa: seq<Value>, ghost on: seq<Node>, ghost out: set<Value>)
      requires nold != node && on == nold[..] && j < |on| && DistinctKeys(on)
      requires on[j].val != Nil ==> Returns(on[j].key, arr.Length, |oa|, out)
      requires Restored(oa, on[j + 1..], out)
      modifies this, arr, node
      ensures arr == old(arr) && node == old(node) && Restored(oa, on[j..], out)
      ensures lastfree == -1 ==> old(lastfree) == -1
      decreases 1, 0
    {
      SuffixStep(on, j);
      if nold[j].val != Nil {
        var key := nold[j].key;
        if key in out { RoomFor(oa, on[j + 1..], out, key); }
        SetKey(key, nold[j].val);
      }
    }

    /** Re-insert elements from the old hash part, last node first. */
    method RestoreNodes(nold: array<Node>, oldhsize: nat, ghost oa: seq<Value>, ghost on: seq<Node>,
                        ghost out: set<Value>)
      requires nold != node && oldhsize <= nold.Length && on == nold[..] && DistinctKeys(on)
      requires forall i :: oldhsize <= i < |on| ==> on[i].val == Nil
      requires forall i :: 0 <= i < |on| && on[i].val != Nil ==> Returns(on[i].key, arr.Length, |oa|, out)
      requires Restored(oa, [], out)
      modifies this, arr, node
      ensures arr == old(arr) && node == old(node) && Restored(oa, on, out)
      ensures lastfree == -1 ==> old(lastfree) == -1
      decreases 1, 1
    {
      var j := oldhsize - 1;
      NothingRestored(oa, on, oldhsize, out);
      while j >= 0
        invariant -1 <= j < oldhsize && arr == old(arr) && node == old(node) && nold[..] == on
        invariant Restored(oa, on[j + 1..], out)
        invariant lastfree == -1 ==> old(lastfree) == -1
      {
        RestoreNode(nold, j, oa, on, out);
        j := j - 1;
      }
      assert on[0..] == on;
    }

    /** luaH_resize, given that the new hash part is large enough for the keys
        that the new array part leaves to it. */
    method Resize(nasize: nat, nhsize: nat)
      requires Valid() && nasize <= MAXASIZE && nhsize <= MAX_KEYS
      requires |OutKeys(Live(), nasize)| <= nhsize
      modifies this, arr, node
      ensures Valid() && arr.Length == nasize && SameContents()
      ensures fresh(arr) || arr == old(arr)
      ensures fresh(node)
      ensures |OutKeys(old(Live()), nasize)| < nhsize ==> HasRoom()
      decreases 1, 2
    {
      ghost var oa, on, out := arr[..], node[..], OutKeys(Live(), nasize);
      var oarr, nold, oldasize := arr, node, arr.Length;
      var oldhsize := if lastfree == -1 then 0 else node.Length;
      ReturningKeys(oa, on, nasize);
      if nasize > oldasize {
        SetArrayVector(nasize);
        assert forall q :: Lookup(arr[..], [], q) == Lookup(oa, [], q);
      }
      SetNodeVector(nhsize);
      if nasize < oldasize {
        SetArrayVector(nasize);
        assert arr[..] == oarr[..nasize];
        SeparateByKeys(node[..], nasize);
        RestoreSlice(oarr, out);
      } else {
        SeparateByKeys(node[..], nasize);
      }
      RestoreNodes(nold, oldhsize, oa, on, out);
      if |out| < nhsize {
        SubsetSize(KeySet(node[..]), out);
        FreeNodeExists(node[..]);
      }
    }

    /** countint */
    method CountInt(key: Value, nums: array<nat>, ghost keys: set<int>) returns (c: nat)
      requires Counts(nums[..], keys) && (InArray(key, MAXASIZE) ==> key.i !in keys)
      modifies nums
      ensures Counts(nums[..], keys + OneInt(key)) && c == |OneInt(key)|
    {
      if key.Int? && 0 < key.i <= MAXASIZE {
        var r := CeilLog2(key.i);
        AddKey(nums[..], keys, key.i, r);
        nums[r] := nums[r] + 1;
        c := 1;
      } else {
        assert keys + OneInt(key) == keys;
        c := 0;
      }
    }

    /** numusearray */
    method NumUseArray(nums: array<nat>) returns (ause: nat)
      requires arr.Length <= MAXASIZE && Counts(nums[..], {})
      modifies nums
      ensures Counts(nums[..], CellInts(arr[..], 0, arr.Length)) && ause == |CellInts(arr[..], 0, arr.Length)|
    {
      ghost var a := arr[..];
      var lg, ttlg, i := 0, 1, 1;
      ause := 0;
      assert CellInts(a, 0, 0) == {};
      while lg <= MAXABITS
        invariant lg <= MAXABITS + 1 && ttlg == Pow2(lg)
        invariant i == Min(SliceStart(lg), |a|) + 1
        invariant Counts(nums[..], CellInts(a, 0, i - 1)) && ause == |CellInts(a, 0, i - 1)|
      {
        var lim := ttlg;
        if lim > arr.Length {
          lim := arr.Length;
          if i > lim {
            break;
          }
        }
        var lc := CountCells(i, lim);
        AddSlice(nums[..], a, lg, i - 1, lim);
        nums[lg] := nums[lg] + lc;
        ause := ause + lc;
        i, lg, ttlg := lim + 1, lg + 1, ttlg * 2;
      }
      if lg > MAXABITS { MaxSizeIsPow2(); }
    }

    /** The inner loop of numusearray: cells `first` to `lim` with a value. */
    method CountCells(first: nat, lim: nat) returns (lc: nat)
      requires 1 <= first <= lim + 1 && lim <= arr.Length
      ensures lc == |CellInts(arr[..], first - 1, lim)|
    {
      ghost var a := arr[..];
      var i := first;
      lc := 0;
      assert CellInts(a, first - 1, i - 1) == {};
      while i <= lim
        invariant first <= i <= lim + 1 && lc == |CellInts(a, first - 1, i - 1)|
      {
        CountStep(a, first - 1, i);
        if arr[i - 1] != Nil {
          lc := lc + 1;
        }
        i := i + 1;
      }
    }

    /** numusehash */
    method NumUseHash(nums: array<nat>, ghost keys: set<int>) returns (totaluse: nat, ause: nat)
      requires Counts(nums[..], keys) && DistinctKeys(node[..]) && FreeNodesUnlinked(node[..])
      requires keys !! IntKeys(NodeKeys(node[..]))
      modifies nums
      ensures Counts(nums[..], keys + IntKeys(NodeKeys(node[..])))
      ensures totaluse == |NodeKeys(node[..])| && ause == |IntKeys(NodeKeys(node[..]))|
    {
      ghost var ns := node[..];
      totaluse, ause := 0, 0;
      var i := node.Length;
      assert NodeKeys(ns[i..]) == {};
      assert keys + IntKeys(NodeKeys(ns[i..])) == keys;
      while i > 0
        invariant 0 <= i <= |ns|
        invariant Counts(nums[..], keys + IntKeys(NodeKeys(ns[i..])))
        invariant totaluse == |NodeKeys(ns[i..])| && ause == |IntKeys(NodeKeys(ns[i..]))|
      {
        i := i - 1;
        CountedOnce(ns, i, keys);
        if node[i].val != Nil {
          var c := CountInt(node[i].key, nums, keys + IntKeys(NodeKeys(ns[i + 1..])));
          ause := ause + c;
          totaluse := totaluse + 1;
        }
      }
      assert ns[0..] == ns;
    }

    /** The counting phase of rehash; `ek` is the key about to come. */
    method CountKeys(ek: Value) returns (nums: array<nat>, na: nat, totaluse: nat)
      requires Valid() && !InArray(ek, arr.Length) && !HasKey(node[..], ek)
      ensures fresh(nums) && Counts(nums[..], IntKeys(Live() + {ek}))
      ensures na == |IntKeys(Live() + {ek})| && totaluse == |Live()| + 1
    {
      ghost var live := Live();
      nums, na, totaluse := CountPresent();
      NotLive(arr[..], node[..], ek);
      IntKeysAdd(live, ek);
      var c := CountInt(ek, nums, IntKeys(live));
      na, totaluse := na + c, totaluse + 1;
    }

    /** The keys that are there. */
    method CountPresent() returns (nums: array<nat>, na: nat, totaluse: nat)
      requires Valid()
      ensures fresh(nums) && Counts(nums[..], IntKeys(Live()))
      ensures na == |IntKeys(Live())| && totaluse == |Live()|
    {
      nums := new nat[MAXABITS + 1](_ => 0);
      NoneCounted(nums[..]);
      ghost var cells := CellInts(arr[..], 0, arr.Length);
      KeyCounts(arr[..], node[..]);
      NodeKeysApart(arr[..], node[..]);
      na := NumUseArray(nums);
      totaluse := na;
      var inHash, intInHash := NumUseHash(nums, cells);
      totaluse, na := totaluse + inHash, na + intInHash;
    }

    /** rehash: give the table its optimal sizes, counting the key about to come. */
    method Rehash(ek: Value)
      requires Valid() && IsKey(ek) && IsSlot(ek, NilObject)
      requires |Live()| < MAX_KEYS
      modifies this, arr, node
      ensures Valid() && SameContents()
      ensures fresh(arr) || arr == old(arr)
      ensures fresh(node)
      ensures OptimalSize(old(IntKeys(Live() + {ek})), arr.Length)
      ensures InArray(ek, arr.Length) || HasRoom()
      decreases 1, 3
    {
      ghost var live := Live();
      var nums, na, totaluse := CountKeys(ek);
      IntKeysFew(live + {ek});
      var asize;
      asize, na := ComputeSizes(nums, na, IntKeys(live + {ek}));
      NotLive(arr[..], node[..], ek);
      SizesFit(live, ek, asize);
      Resize(asize, totaluse - na);
    }

    /** luaH_resizearray, which is called only to grow: the hash part keeps its
        size and every key left to it had a node already. */
    method ResizeArray(nasize: nat)
      requires Valid() && arr.Length <= nasize <= MAXASIZE
      modifies this, arr, node
      ensures Valid() && arr.Length == nasize && SameContents()
      ensures fresh(arr) || arr == old(arr)
      ensures fresh(node)
      decreases 1, 5
    {
      var nsize := if lastfree == -1 then 0 else node.Length;
      NodesSuffice(arr[..], node[..], nasize);
      Resize(nasize, nsize);
    }

    /** The finite map the table stands for. */
    ghost function Contents(): map<Value, Value>
      reads this, arr, node
    {
      MapOf(arr[..], node[..])
    }

    /** luaH_new */
    constructor (hash: Value -> nat)
      ensures Valid() && fresh(arr) && fresh(node) && Contents() == map[] && this.hash == hash
    {
      this.hash := hash;
      arr := new Value[0];
      node := new Node[1][EMPTY_NODE];
      lastfree := -1;
      rank := [0];
      new;
      EmptyNodesWellFormed(hash, 1);
      assert node[..] == seq(1, _ => EMPTY_NODE);
      assert seq(1, _ => 0) == rank;
      assert Pow2(0) == 1;
      forall k ensures k !in MapOf(arr[..], node[..]) {
        MapOfIsLookup(arr[..], node[..], k);
      }
    }

    /** luaH_newkey for a key that is not in the table. */
    method NewKey(key: Value) returns (r: Result<Slot>)
      requires Valid() && |Live()| < MAX_KEYS
      requires key != Nil ==> IsSlot(Normal(key), NilObject)
      modifies this, arr, node
      ensures Valid() && SameContents()
      ensures fresh(arr) || arr == old(arr)
      ensures fresh(node) || node == old(node)
      ensures r.IndexIsNil? <==> key == Nil
      ensures r.IndexIsNaN? <==> key == Flt(NaN)
      ensures r.Ok? ==> r.value != NilObject && IsSlot(Normal(key), r.value)
      decreases 1, 8
    {
      var stored := key;
      if key == Nil {
        return IndexIsNil;
      } else if key.Flt? {
        var k := FloatToInteger(key.f);
        if k.Some? {
          stored := Int(k.value);
        } else if key.f == NaN {
          return IndexIsNaN;
        }
      }
      var s := InsertKey(stored, 1);
      return Ok(s);
    }

    lemma SlotIsKey(k: Value, s: Slot)
      requires Valid() && IsSlot(k, s) && s != NilObject && k != Nil
      ensures IsKey(k)
    {
    }

    /** luaH_set */
    method SetSlot(key: Value) returns (r: Result<Slot>)
      requires Valid() && |Live()| < MAX_KEYS
      modifies this, arr, node
      ensures Valid() && SameContents()
      ensures fresh(arr) || arr == old(arr)
      ensures fresh(node) || node == old(node)
      ensures r.IndexIsNil? <==> key == Nil
      ensures r.IndexIsNaN? <==> key == Flt(NaN)
      ensures r.Ok? ==> r.value != NilObject && IsSlot(Normal(key), r.value)
      decreases 1, 9
    {
      var s := Find(key);
      if s == NilObject {
        r := NewKey(key);
      } else {
        SlotIsKey(Normal(key), s);
        r := Ok(s);
      }
    }

    /** luaH_set followed by the store of its caller: the table is updated as a
        finite map is, and nil removes the key. */
    method Put(key: Value, value: Value) returns (r: Result<Slot>)
      requires Valid() && |Live()| < MAX_KEYS
      modifies this, arr, node
      ensures Valid()
      ensures fresh(arr) || arr == old(arr)
      ensures fresh(node) || node == old(node)
      ensures r.IndexIsNil? <==> key == Nil
      ensures r.IndexIsNaN? <==> key == Flt(NaN)
      ensures !r.Ok? ==> SameContents()
      ensures r.Ok? ==> Contents() == if value != Nil then old(Contents())[Normal(key) := value]
                                      else old(Contents()) - {Normal(key)}
    {
      ghost var arr0, ns0 := arr[..], node[..];
      r := SetSlot(key);
      if r.Ok? {
        Store(r.value, Normal(key), value);
        forall q | q != Nil && q != Normal(key) ensures Lookup(arr[..], node[..], q) == Lookup(arr0, ns0, q) {
          assert Get(q) == old(Get(q));
        }
        assert Get(Normal(key)) == value;
        MapUpdated(arr0, ns0, arr[..], node[..], Normal(key), value);
      }
    }

    /** Reading a key gives what the map holds for it, nil when it holds nothing. */
    method ReadKey(key: Value) returns (v: Value)
      requires Valid()
      ensures v == if Normal(key) in Contents() then Contents()[Normal(key)] else Nil
    {
      MapOfIsLookup(arr[..], node[..], Normal(key));
      var s := Find(key);
      v := ReadSlot(s, Normal(key));
    }

    /** The value at the place where the stored key lives. */
    method ReadSlot(s: Slot, ghost k: Value) returns (v: Value)
      requires Valid() && if k == Nil then s == NilObject else IsSlot(k, s)
      ensures v == if k == Nil then Nil else Get(k)
    {
      match s {
        case ArraySlot(i) => v := arr[i];
        case NodeSlot(n) =>
          HashGetIs(node[..], k, n);
          v := node[n].val;
        case NilObject => v := Nil;
      }
    }
  }
}
