/** Comparison functions and what sorting with one leaves (src/ltablib.c). */
module SortOrder {
  import opened LuaValues

  /** What the order function answers at its `n`th call; None when it raises an
      error. Nothing else is assumed of it. */
  type Order<!T(!new)> = (nat, T, T) -> Option<bool>

  type Less<!T(!new)> = (T, T) -> bool

  /** The order function answers as a strict weak order does. */
  ghost predicate IsOrder<T(!new)>(cmp: Order<T>, lt: Less<T>) {
    && (forall n, x, y :: cmp(n, x, y) == Some(lt(x, y)))
    && (forall x :: !lt(x, x))
    && (forall x, y, z :: lt(x, y) && lt(y, z) ==> lt(x, z))
    && (forall x, y, z :: !lt(x, y) && !lt(y, z) ==> !lt(x, z))
  }

  /** Everything in [lo, up] is in order. */
  ghost predicate Sorted<T(!new)>(lt: Less<T>, s: seq<T>, lo: nat, up: nat) {
    forall i, j :: lo <= i < j <= up && j < |s| ==> !lt(s[j], s[i])
  }

  /** Pairs of [lo0, up0] are in order unless both elements lie in [lo, up]. */
  ghost predicate Settled<T(!new)>(lt: Less<T>, s: seq<T>, lo0: nat, up0: nat, lo: int, up: int) {
    forall i, j :: lo0 <= i < j <= up0 && j < |s| && !(lo <= i && j <= up) ==> !lt(s[j], s[i])
  }

  /** `s'` has the same elements as `s`, in another order within [lo, up]. */
  ghost predicate Shuffled<T(!new)>(s: seq<T>, s': seq<T>, lo: int, up: int) {
    && |s'| == |s| && multiset(s') == multiset(s)
    && forall i :: 0 <= i < |s| && !(lo <= i <= up) ==> s'[i] == s[i]
  }

  lemma ShuffledTransitive<T(!new)>(s: seq<T>, s1: seq<T>, s2: seq<T>, lo: int, up: int, lo1: int, up1: int)
    requires Shuffled(s, s1, lo, up) && Shuffled(s1, s2, lo1, up1) && lo <= lo1 && up1 <= up
    ensures Shuffled(s, s2, lo, up)
  {
  }

  lemma SwapShuffles<T(!new)>(s: seq<T>, i: nat, j: nat, lo: int, up: int)
    requires i < |s| && j < |s| && lo <= i <= up && lo <= j <= up
    ensures Shuffled(s, s[i := s[j]][j := s[i]], lo, up)
  {
    var s' := s[i := s[j]][j := s[i]];
    assert multiset(s[i := s[j]]) == multiset(s) - multiset{s[i]} + multiset{s[j]};
    assert multiset(s') == multiset(s);
  }

  /** Every element of the shuffled part was in that part before. */
  lemma ShuffledElement<T(!new)>(s: seq<T>, s': seq<T>, lo: nat, up: nat, i: nat)
    requires Shuffled(s, s', lo, up) && lo <= i <= up < |s|
    ensures exists k :: lo <= k <= up && s[k] == s'[i]
  {
    var n, x := up + 1, s'[i];
    Parts(s, lo, n, x);
    Parts(s', lo, n, x);
    SameOutside(s, s', lo, n);
    var mid, mid' := s[lo..n], s'[lo..n];
    assert mid'[i - lo] == x && multiset(mid')[x] > 0;
    assert x in multiset(mid);
    var k :| 0 <= k < |mid| && mid[k] == x;
    assert s[lo + k] == x;
  }

  lemma Parts<T(!new)>(s: seq<T>, lo: nat, n: nat, x: T)
    requires lo <= n <= |s|
    ensures multiset(s)[x] == multiset(s[..lo])[x] + multiset(s[lo..n])[x] + multiset(s[n..])[x]
  {
    assert s == s[..lo] + s[lo..n] + s[n..];
  }

  lemma SameOutside<T(!new)>(s: seq<T>, s': seq<T>, lo: nat, n: nat)
    requires lo <= n <= |s| == |s'| && forall i :: 0 <= i < |s| && !(lo <= i < n) ==> s'[i] == s[i]
    ensures s[..lo] == s'[..lo] && s[n..] == s'[n..]
  {
    assert forall k :: 0 <= k < |s| - n ==> s[n..][k] == s[n + k] && s'[n..][k] == s'[n + k];
  }

  /** Shuffling within [lo, up] unsettles nothing. */
  lemma ShuffleKeepsSettled<T(!new)>(lt: Less<T>, s: seq<T>, s': seq<T>, lo0: nat, up0: nat, lo: nat, up: nat)
    requires Settled(lt, s, lo0, up0, lo, up) && Shuffled(s, s', lo, up) && lo0 <= lo && up <= up0 < |s|
    ensures Settled(lt, s', lo0, up0, lo, up)
  {
    forall i, j | lo0 <= i < j <= up0 && j < |s'| && !(lo <= i && j <= up) ensures !lt(s'[j], s'[i]) {
      if lo <= i <= up {
        ShuffledElement(s, s', lo, up, i);
        var k :| lo <= k <= up && s[k] == s'[i];
        assert !lt(s[j], s[k]);
      } else if lo <= j <= up {
        ShuffledElement(s, s', lo, up, j);
        var k :| lo <= k <= up && s[k] == s'[j];
        assert !lt(s[k], s[i]);
      } else {
        assert !lt(s[j], s[i]);
      }
    }
  }

  /** The element at `p` separates the smaller from the larger ones. */
  ghost predicate Pivoted<T(!new)>(lt: Less<T>, s: seq<T>, lo: nat, up: nat, p: nat) {
    && lo <= p <= up < |s|
    && (forall k :: lo <= k < p ==> !lt(s[p], s[k]))
    && (forall k :: p < k <= up ==> !lt(s[k], s[p]))
  }

  /** After partition each side is left to be sorted on its own; when the lower one
      has been sorted, only the upper one remains. */
  lemma LowerDone<T(!new)>(cmp: Order<T>, lt: Less<T>, s: seq<T>, s': seq<T>, lo0: nat, up0: nat, lo: nat, up: nat,
                           p: nat)
    requires IsOrder(cmp, lt) && Settled(lt, s, lo0, up0, lo, up) && Pivoted(lt, s, lo, up, p) && lo < p
    requires lo0 <= lo && up <= up0 < |s| && Shuffled(s, s', lo, p - 1) && Sorted(lt, s', lo, p - 1)
    ensures Settled(lt, s', lo0, up0, p + 1, up)
  {
    ShuffleKeepsSettled(lt, s, s', lo0, up0, lo, up);
    forall i, j | lo0 <= i < j <= up0 && j < |s'| && !(p + 1 <= i && j <= up) ensures !lt(s'[j], s'[i]) {
      if lo <= i && j <= up { AcrossLower(cmp, lt, s, s', lo, up, p, i, j); }
    }
  }

  lemma AcrossLower<T(!new)>(cmp: Order<T>, lt: Less<T>, s: seq<T>, s': seq<T>, lo: nat, up: nat, p: nat, i: nat,
                             j: nat)
    requires IsOrder(cmp, lt) && Pivoted(lt, s, lo, up, p) && lo < p
    requires Shuffled(s, s', lo, p - 1) && Sorted(lt, s', lo, p - 1) && lo <= i < j <= up && i <= p
    ensures !lt(s'[j], s'[i])
  {
    if i < p <= j {
      ShuffledElement(s, s', lo, p - 1, i);
      var k :| lo <= k <= p - 1 && s[k] == s'[i];
      assert !lt(s[p], s[k]) && (p < j ==> !lt(s[j], s[p]));
    }
  }

  lemma UpperDone<T(!new)>(cmp: Order<T>, lt: Less<T>, s: seq<T>, s': seq<T>, lo0: nat, up0: nat, lo: nat, up: nat,
                           p: nat)
    requires IsOrder(cmp, lt) && Settled(lt, s, lo0, up0, lo, up) && Pivoted(lt, s, lo, up, p) && p < up
    requires lo0 <= lo && up <= up0 < |s| && Shuffled(s, s', p + 1, up) && Sorted(lt, s', p + 1, up)
    ensures Settled(lt, s', lo0, up0, lo, p - 1)
  {
    ShuffleKeepsSettled(lt, s, s', lo0, up0, lo, up);
    forall i, j | lo0 <= i < j <= up0 && j < |s'| && !(lo <= i && j <= p - 1) ensures !lt(s'[j], s'[i]) {
      if lo <= i && j <= up { AcrossUpper(cmp, lt, s, s', lo, up, p, i, j); }
    }
  }

  lemma AcrossUpper<T(!new)>(cmp: Order<T>, lt: Less<T>, s: seq<T>, s': seq<T>, lo: nat, up: nat, p: nat, i: nat,
                             j: nat)
    requires IsOrder(cmp, lt) && Pivoted(lt, s, lo, up, p) && p < up
    requires Shuffled(s, s', p + 1, up) && Sorted(lt, s', p + 1, up) && lo <= i < j <= up && p <= j
    ensures !lt(s'[j], s'[i])
  {
    if i <= p < j {
      ShuffledElement(s, s', p + 1, up, j);
      var k :| p + 1 <= k <= up && s[k] == s'[j];
      assert !lt(s[k], s[p]) && (i < p ==> !lt(s[p], s[i]));
    }
  }

  // ---- partition ----

  /** a[lo .. i] <= P <= a[j .. up] */
  ghost predicate Between<T(!new)>(lt: Less<T>, s: seq<T>, P: T, lo: nat, i: nat, j: nat, up: nat)
    requires up < |s|
  {
    (forall k :: lo <= k <= i && k <= up ==> !lt(P, s[k])) && (forall k :: j <= k <= up ==> !lt(s[k], P))
  }

  /** What the two scans have found out. */
  ghost predicate Scanned<T(!new)>(lt: Less<T>, s: seq<T>, P: T, lo: nat, i0: nat, j0: nat, i: nat, j: nat, up: nat)
    requires up < |s|
  {
    && i0 < i <= up && j0 <= up && lo <= j < j0 && (i <= j0 || i == i0 + 1)
    && !lt(s[i], P) && (forall k :: i0 < k < i ==> lt(s[k], P))
    && !lt(P, s[j]) && (forall k :: j < k < j0 ==> lt(P, s[k]))
  }

  /** After a round: the end, or the beginning of the next. */
  ghost predicate Parted<T(!new)>(lt: Less<T>, s: seq<T>, P: T, lo: nat, i: nat, j: nat, up: nat)
    requires up < |s|
  {
    (j < i && Pivoted(lt, s, lo, up, i)) || (i <= j && Between(lt, s, P, lo, i, j, up))
  }

  /** The upward scan stops before it passes an element not below the pivot; where
      the downward scan may not pass. */
  lemma ScanStops<T(!new)>(cmp: Order<T>, lt: Less<T>, s: seq<T>, P: T, lo: nat, i0: nat, j0: nat, i: nat, up: nat)
    requires IsOrder(cmp, lt) && up < |s| && lo <= i0 < i <= up && i0 <= j0 <= up && lo < j0 &&
             Between(lt, s, P, lo, i0, j0, up)
    requires forall k :: i0 < k < i ==> lt(s[k], P)
    ensures (i <= j0 && !lt(P, s[i - 1])) || (i == i0 + 1 && !lt(P, s[j0 - 1]))
  {
    assert !lt(s[j0], P) && (i0 == j0 ==> !lt(s[i0 + 1], P));
    assert i0 < i - 1 ==> lt(s[i - 1], P);
  }

  /** Out of place, both of them: they change places. */
  lemma Exchanged<T(!new)>(cmp: Order<T>, lt: Less<T>, s: seq<T>, P: T, lo: nat, i0: nat, j0: nat, i: nat, j: nat,
                           up: nat)
    requires IsOrder(cmp, lt) && up < |s| && lo <= i0 && i <= j && Between(lt, s, P, lo, i0, j0, up)
    requires Scanned(lt, s, P, lo, i0, j0, i, j, up)
    ensures Parted(lt, s[i := s[j]][j := s[i]], P, lo, i, j, up)
  {
    var s' := s[i := s[j]][j := s[i]];
    forall k | lo <= k <= i ensures !lt(P, s'[k]) {
      if i0 < k < i { assert lt(s[k], P); }
    }
    forall k | j <= k <= up ensures !lt(s'[k], P) {
      if j < k < j0 { assert lt(P, s[k]); }
    }
  }

  /** Nothing is out of place: the pivot goes between the two parts. */
  lemma Separated<T(!new)>(cmp: Order<T>, lt: Less<T>, s: seq<T>, P: T, lo: nat, i0: nat, j0: nat, i: nat, j: nat,
                           up: nat)
    requires IsOrder(cmp, lt) && up < |s| && lo <= i0 && j < i < up && s[up - 1] == P &&
             Between(lt, s, P, lo, i0, j0, up)
    requires Scanned(lt, s, P, lo, i0, j0, i, j, up)
    ensures Parted(lt, s[up - 1 := s[i]][i := P], P, lo, i, j, up)
  {
    var s' := s[up - 1 := s[i]][i := P];
    forall k | lo <= k < i ensures !lt(P, s'[k]) {
      if i0 < k { assert lt(s[k], P); }
    }
    forall k | i < k <= up ensures !lt(s'[k], P) {
      if k < j0 && k != up - 1 { assert lt(P, s[k]); }
    }
  }

  // ---- The three elements that are put in order first ----

  lemma SettledWhole<T(!new)>(lt: Less<T>, s: seq<T>, lo: nat, up: nat)
    ensures Settled(lt, s, lo, up, lo, up)
  {
  }

  /** A single element, or none, is in order. */
  lemma SettledIsSorted<T(!new)>(lt: Less<T>, s: seq<T>, lo0: nat, up0: nat, lo: int, up: int)
    requires Settled(lt, s, lo0, up0, lo, up) && up <= lo
    ensures Sorted(lt, s, lo0, up0)
  {
  }

  /** The part that was left is in order, too. */
  lemma SortedInside<T(!new)>(lt: Less<T>, s: seq<T>, lo0: nat, up0: nat, lo: nat, up: nat)
    requires Settled(lt, s, lo0, up0, lo, up) && Sorted(lt, s, lo, up)
    ensures Sorted(lt, s, lo0, up0)
  {
  }
}
