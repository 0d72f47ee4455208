/** table.sort (src/ltablib.c): quicksort in place with an order function that may
    answer anything. */
module QuickSort {
  import opened LuaValues
  import opened SortOrder
  import opened Powers

  const RANLIMIT: nat := 100

  /** How a sort may end. */
  datatype Outcome = Done | InvalidOrder | Raised

  /** Why two elements are compared: to put them in order, or by a scan for the pivot
      that has come to element `i` and must stop at `last`, or has come down to element
      `j` and must not be told to go on below `i`. */
  datatype Purpose = Arranging | Upward(i: nat, last: nat) | Downward(j: nat, i: nat)

  /** A call of the order function, and its answer: None is an error. */
  datatype Question<T> = Question(x: T, y: T, why: Purpose, answer: Option<bool>)

  /** The answer sends a scan past its bound. */
  predicate GoesPast<T>(q: Question<T>) {
    && q.answer == Some(true)
    && match q.why
       case Arranging => false
       case Upward(i, last) => i == last
       case Downward(j, i) => j < i
  }

  /** How the sort ends if this call is the last one. */
  function Verdict<T>(q: Question<T>): Outcome {
    if q.answer.None? then Raised else if GoesPast(q) then InvalidOrder else Done
  }

  /** Since `log0` there have been the calls of `log`: the last one decides how it ends,
      and none before it was an error or sent a scan past its bound. */
  ghost predicate Ends<T>(log0: seq<Question<T>>, log: seq<Question<T>>, r: Outcome) {
    && log0 <= log && (forall k :: |log0| <= k < |log| - 1 ==> Verdict(log[k]).Done?)
    && r == if |log| == |log0| then Done else Verdict(log[|log| - 1])
  }

  /** A scan: from an element up, as far as `last`, or from an element down, and not
      below `i` again. */
  datatype Way = Up(from: nat, last: nat) | Down(from: nat, i: nat)

  /** What a scan for the pivot asks in place `k`. */
  function Asked<T>(s: seq<T>, P: T, way: Way, k: nat, answer: Option<bool>): Option<Question<T>> {
    match way
    case Up(from, last) =>
      if from + k < |s| then Some(Question(s[from + k], P, Upward(from + k, last), answer)) else None
    case Down(from, i) =>
      if k <= from < |s| then Some(Question(P, s[from - k], Downward(from - k, i), answer)) else None
  }

  /** The scan has asked about `n` elements, one after the other; only the last answer
      may have ended it. */
  ghost predicate AsksAlong<T>(log0: seq<Question<T>>, log: seq<Question<T>>, s: seq<T>, P: T, way: Way, n: nat) {
    && |log| == |log0| + n && log0 <= log
    && forall k {:trigger AskedAt(log0, log, s, P, way, k)} :: |log0| <= k < |log| ==>
         AskedAt(log0, log, s, P, way, k)
  }

  ghost predicate AskedAt<T>(log0: seq<Question<T>>, log: seq<Question<T>>, s: seq<T>, P: T, way: Way, k: nat)
    requires |log0| <= k < |log|
  {
    && Asked(s, P, way, k - |log0|, log[k].answer) == Some(log[k])
    && (k < |log| - 1 ==> Verdict(log[k]).Done?)
  }

  lemma AskedMore<T>(log0: seq<Question<T>>, log: seq<Question<T>>, s: seq<T>, P: T, way: Way, n: nat, q: Question<T>)
    requires AsksAlong(log0, log, s, P, way, n) && Asked(s, P, way, n, q.answer) == Some(q)
    requires n > 0 ==> Verdict(log[|log| - 1]).Done?
    ensures AsksAlong(log0, log + [q], s, P, way, n + 1)
  {
    var log' := log + [q];
    forall k | |log0| <= k < |log'| ensures AskedAt(log0, log', s, P, way, k) {
      assert k < |log| ==> AskedAt(log0, log, s, P, way, k);
    }
  }

  /** How the scan ends is what its last answer says. */
  lemma ScanEnds<T>(log0: seq<Question<T>>, log: seq<Question<T>>, s: seq<T>, P: T, way: Way, n: nat)
    requires AsksAlong(log0, log, s, P, way, n) && n > 0
    ensures Ends(log0, log, Verdict(log[|log| - 1]))
  {
    forall k | |log0| <= k < |log| - 1 ensures Verdict(log[k]).Done? {
      assert AskedAt(log0, log, s, P, way, k);
    }
  }

  lemma SortEnds<T>(log0: seq<Question<T>>, log: seq<Question<T>>, r: Outcome)
    requires Ends(log0, log, r)
    ensures forall k :: |log0| <= k < |log| - 1 ==> log[k].answer.Some? && !GoesPast(log[k])
    ensures r.Raised? <==> |log| > |log0| && log[|log| - 1].answer.None?
    ensures r.InvalidOrder? <==> |log| > |log0| && GoesPast(log[|log| - 1])
  {
    forall k | |log0| <= k < |log| - 1 ensures log[k].answer.Some? && !GoesPast(log[k]) {
      assert Verdict(log[k]).Done?;
    }
  }

  lemma EndsTransitive<T>(log0: seq<Question<T>>, log1: seq<Question<T>>, log2: seq<Question<T>>, r: Outcome)
    requires Ends(log0, log1, Done) && Ends(log1, log2, r)
    ensures Ends(log0, log2, r)
  {
    forall k | |log0| <= k < |log2| - 1 ensures Verdict(log2[k]).Done? {
      assert k < |log1| ==> log2[k] == log1[k];
    }
  }

  /** The table is the array, from index 1 on; `calls` counts what has been asked of
      the order function, `random` are the values of l_randomizePivot. */
  class Sorter<T(!new)> {
    const a: array<T>
    const cmp: Order<T>
    const random: nat -> nat
    ghost const lt: Less<T>  // the order, if the order function does follow one
    var calls: nat
    ghost var seen: set<int>  // the elements that have been read or written
    ghost var log: seq<Question<T>>  // the calls of the order function

    /** Call number `k` has been answered by cmp(k, ...). */
    ghost predicate Recorded()
      reads this
    {
      calls == |log| && forall k :: 0 <= k < |log| ==> log[k].answer == cmp(k, log[k].x, log[k].y)
    }

    constructor (a: array<T>, cmp: Order<T>, random: nat -> nat, ghost lt: Less<T>)
      ensures this.a == a && this.cmp == cmp && this.random == random && this.lt == lt && seen == {}
      ensures Recorded() && log == []
    {
      this.a, this.cmp, this.random, this.lt, this.calls, seen, log := a, cmp, random, lt, 0, {}, [];
    }

    /** lua_geti */
    method Get(i: nat) returns (x: T)
      requires i < a.Length
      modifies this`seen
      ensures x == a[i] && seen == old(seen) + {i}
    {
      x := a[i];
      seen := seen + {i};
    }

    /** sort_comp */
    method Compare(x: T, y: T, ghost why: Purpose) returns (r: Option<bool>)
      modifies this`calls, this`log
      ensures r == cmp(old(calls), x, y) && log == old(log) + [Question(x, y, why, r)]
      ensures old(Recorded()) ==> Recorded()
      ensures IsOrder(cmp, lt) ==> r == Some(lt(x, y)) && !(lt(x, y) && lt(y, x))
    {
      r := cmp(calls, x, y);
      calls := calls + 1;
      log := log + [Question(x, y, why, r)];
    }

    /** set2 with both elements on the stack: they change places. */
    method Swap(i: nat, j: nat, ghost lo: nat, ghost up: nat)
      requires i < a.Length && j < a.Length && lo <= i <= up && lo <= j <= up
      modifies a, this`seen
      ensures a[..] == old(a[..])[i := old(a[j])][j := old(a[i])] && Shuffled(old(a[..]), a[..], lo, up)
      ensures seen == old(seen) + {i, j}
    {
      SwapShuffles(a[..], i, j, lo, up);
      a[i], a[j] := a[j], a[i];
      seen := seen + {i, j};
    }

    /** Compare a[i] with a[j] and swap them if a[j] < a[i]. */
    method Arrange(i: nat, j: nat, ghost lo: nat, ghost up: nat) returns (r: Option<bool>)
      requires i < j < a.Length && lo <= i && j <= up
      modifies a, this`calls, this`seen, this`log
      ensures Shuffled(old(a[..]), a[..], lo, up) && seen == old(seen) + {i, j}
      ensures log == old(log) + [Question(old(a[j]), old(a[i]), Arranging, r)] && (old(Recorded()) ==> Recorded())
      ensures r == Some(true) ==> a[i] == old(a[j]) && a[j] == old(a[i])
      ensures forall k :: 0 <= k < a.Length && ((k != i && k != j) || r != Some(true)) ==> a[k] == old(a[k])
      ensures IsOrder(cmp, lt) ==> r == Some(lt(old(a[j]), old(a[i]))) && !lt(a[j], a[i])
    {
      var y := Get(j);
      var x := Get(i);
      r := Compare(y, x, Arranging);
      if r == Some(true) {
        Swap(i, j, lo, up);
        assert a[i] == y && a[j] == x;
      }
    }

    /** The question of an upward scan about element `i`. */
    method AskUp(i: nat, P: T, up: nat, ghost log0: seq<Question<T>>, ghost i0: nat) returns (less: Option<bool>)
      requires i0 < i < up < a.Length && AsksAlong(log0, log, a[..], P, Up(i0 + 1, up - 1), i - i0 - 1)
      requires i - i0 - 1 > 0 ==> Verdict(log[|log| - 1]).Done?
      modifies this`calls, this`seen, this`log
      ensures AsksAlong(log0, log, a[..], P, Up(i0 + 1, up - 1), i - i0) && (old(Recorded()) ==> Recorded())
      ensures Verdict(log[|log| - 1]) ==
              if less.None? then Raised else if less == Some(true) && i == up - 1 then InvalidOrder else Done
      ensures seen == old(seen) + {i} && (IsOrder(cmp, lt) ==> less == Some(lt(a[i], P)))
    {
      var x := Get(i);
      less := Compare(x, P, Upward(i, up - 1));
      AskedMore(log0, old(log), a[..], P, Up(i0 + 1, up - 1), i - i0 - 1, log[|log| - 1]);
    }

    /** The question of a downward scan about element `j`. */
    method AskDown(j: nat, P: T, i: nat, ghost log0: seq<Question<T>>, ghost j0: nat) returns (less: Option<bool>)
      requires j < j0 <= a.Length && AsksAlong(log0, log, a[..], P, Down(j0 - 1, i), j0 - j - 1)
      requires j0 - j - 1 > 0 ==> Verdict(log[|log| - 1]).Done?
      modifies this`calls, this`seen, this`log
      ensures AsksAlong(log0, log, a[..], P, Down(j0 - 1, i), j0 - j) && (old(Recorded()) ==> Recorded())
      ensures Verdict(log[|log| - 1]) ==
              if less.None? then Raised else if less == Some(true) && j < i then InvalidOrder else Done
      ensures seen == old(seen) + {j} && (IsOrder(cmp, lt) ==> less == Some(lt(P, a[j])))
    {
      var x := Get(j);
      less := Compare(P, x, Downward(j, i));
      AskedMore(log0, old(log), a[..], P, Down(j0 - 1, i), j0 - j - 1, log[|log| - 1]);
    }

    /** repeat ++i while a[i] < P */
    method ScanUp(P: T, lo: nat, i0: nat, up: nat) returns (r: Outcome, i: nat)
      requires lo <= i0 < up - 1 && up < a.Length && a[up - 1] == P
      modifies this`calls, this`seen, this`log
      ensures SeenIn(old(seen), seen, lo, up) && i0 < i < up
      ensures Ends(old(log), log, r) && (old(Recorded()) ==> Recorded())
      ensures AsksAlong(old(log), log, a[..], P, Up(i0 + 1, up - 1), i - i0)
      ensures IsOrder(cmp, lt) ==>
                r.Done? && !lt(a[i], P) && forall k :: i0 < k < i ==> lt(a[k], P)
    {
      i := i0 + 1;
      var less := AskUp(i, P, up, log, i0);
      while less == Some(true)
        invariant i0 < i < up && SeenIn(old(seen), seen, lo, up) && (old(Recorded()) ==> Recorded())
        invariant AsksAlong(old(log), log, a[..], P, Up(i0 + 1, up - 1), i - i0)
        invariant Verdict(log[|log| - 1]) ==
                  if less.None? then Raised else if less == Some(true) && i == up - 1 then InvalidOrder else Done
        invariant IsOrder(cmp, lt) ==> less == Some(lt(a[i], P)) && forall k :: i0 < k < i ==> lt(a[k], P)
        decreases up - i
      {
        if i == up - 1 {
          ScanEnds(old(log), log, a[..], P, Up(i0 + 1, up - 1), i - i0);
          return InvalidOrder, i;
        }
        i := i + 1;
        less := AskUp(i, P, up, old(log), i0);
      }
      ScanEnds(old(log), log, a[..], P, Up(i0 + 1, up - 1), i - i0);
      r := if less.None? then Raised else Done;
    }

    /** repeat --j while P < a[j] */
    method ScanDown(P: T, lo: nat, i: nat, j0: nat, up: nat) returns (r: Outcome, j: nat)
      requires lo < i < up < a.Length && lo < j0 < up
      modifies this`calls, this`seen, this`log
      ensures SeenIn(old(seen), seen, lo, up) && lo <= j < j0
      ensures Ends(old(log), log, r) && (old(Recorded()) ==> Recorded())
      ensures AsksAlong(old(log), log, a[..], P, Down(j0 - 1, i), j0 - j)
      ensures r.Done? ==> j < i ==> j == i - 1 || j == j0 - 1
      ensures IsOrder(cmp, lt) && ((i <= j0 && !lt(P, a[i - 1])) || !lt(P, a[j0 - 1])) ==>
                r.Done? && !lt(P, a[j]) && forall k :: j < k < j0 ==> lt(P, a[k])
    {
      j := j0 - 1;
      var less := AskDown(j, P, i, log, j0);
      while less == Some(true)
        invariant SeenIn(old(seen), seen, lo, up) && (old(Recorded()) ==> Recorded())
        invariant lo <= j < j0 && (j < i ==> j == i - 1 || j == j0 - 1)
        invariant AsksAlong(old(log), log, a[..], P, Down(j0 - 1, i), j0 - j)
        invariant Verdict(log[|log| - 1]) ==
                  if less.None? then Raised else if less == Some(true) && j < i then InvalidOrder else Done
        invariant IsOrder(cmp, lt) && ((i <= j0 && !lt(P, a[i - 1])) || !lt(P, a[j0 - 1])) ==>
                    (i - 1 <= j || j == j0 - 1) && less == Some(lt(P, a[j])) && forall k :: j < k < j0 ==> lt(P, a[k])
        decreases j
      {
        if j < i {
          ScanEnds(old(log), log, a[..], P, Down(j0 - 1, i), j0 - j);
          return InvalidOrder, j;
        }
        j := j - 1;
        less := AskDown(j, P, i, old(log), j0);
      }
      ScanEnds(old(log), log, a[..], P, Down(j0 - 1, i), j0 - j);
      r := if less.None? then Raised else Done;
    }

    /** Both scans of one round. */
    method Scan(P: T, lo: nat, i0: nat, j0: nat, up: nat) returns (r: Outcome, i: nat, j: nat)
      requires lo <= i0 <= j0 < up && lo < j0 && i0 < up - 1 && up < a.Length && a[up - 1] == P
      modifies this`calls, this`seen, this`log
      ensures Ends(old(log), log, r) && (old(Recorded()) ==> Recorded())
      ensures SeenIn(old(seen), seen, lo, up)
      ensures r.Done? ==> i0 < i < up && lo <= j < j0 && (j < i ==> j == i - 1 || j == j0 - 1)
      ensures IsOrder(cmp, lt) && Between(lt, a[..], P, lo, i0, j0, up) ==>
                r.Done? && Scanned(lt, a[..], P, lo, i0, j0, i, j, up)
    {
      j := j0;
      r, i := ScanUp(P, lo, i0, up);
      ghost var log1 := log;
      if r.Done? {
        if IsOrder(cmp, lt) && Between(lt, a[..], P, lo, i0, j0, up) {
          ScanStops(cmp, lt, a[..], P, lo, i0, j0, i, up);
        }
        r, j := ScanDown(P, lo, i, j0, up);
        EndsTransitive(old(log), log1, log, r);
      }
    }

    /** partition: the pivot is a[up - 1]. */
    method Partition(lo: nat, up: nat) returns (r: Outcome, i: nat)
      requires 1 <= lo && lo + 3 <= up < a.Length
      modifies a, this`calls, this`seen, this`log
      ensures Ends(old(log), log, r) && (old(Recorded()) ==> Recorded())
      ensures Shuffled(old(a[..]), a[..], lo + 1, up - 1) && SeenIn(old(seen), seen, lo, up)
      ensures r.Done? ==> lo < i < up && a[i] == old(a[up - 1])
      ensures Ordered(old(a[up - 1]), old(a[lo]), old(a[up])) ==> r.Done? && Pivoted(lt, a[..], lo, up, i)
    {
      ghost var s := a[..];
      var P := Get(up - 1);
      i := lo;
      var j := up - 1;
      while true
        invariant lo <= i <= j < up && lo < j && i < up - 1 && a[up - 1] == P && Shuffled(s, a[..], lo + 1, up - 1)
        invariant SeenIn(old(seen), seen, lo, up)
        invariant Ends(old(log), log, Done) && (old(Recorded()) ==> Recorded())
        invariant Ordered(P, s[lo], s[up]) ==> Between(lt, a[..], P, lo, i, j, up)
        decreases up - i
      {
        ghost var s1, log1 := a[..], log;
        r, i, j := Exchange(P, lo, i, j, up);
        EndsTransitive(old(log), log1, log, r);
        ShuffledTransitive(s, s1, a[..], lo + 1, up - 1, lo + 1, up - 1);
        if !r.Done? || j < i {
          return;
        }
      }
    }

    /** One round of partition: two elements change places, or the pivot goes where it
        belongs. */
    method Exchange(P: T, lo: nat, i0: nat, j0: nat, up: nat) returns (r: Outcome, i: nat, j: nat)
      requires lo <= i0 <= j0 < up && lo < j0 && i0 < up - 1 && up < a.Length && a[up - 1] == P
      modifies a, this`calls, this`seen, this`log
      ensures Ends(old(log), log, r) && (old(Recorded()) ==> Recorded())
      ensures Shuffled(old(a[..]), a[..], lo + 1, up - 1) && SeenIn(old(seen), seen, lo, up)
      ensures r.Done? ==> i0 < i < up && lo <= j < j0 && a[if j < i then i else up - 1] == P
      ensures IsOrder(cmp, lt) && old(Between(lt, a[..], P, lo, i0, j0, up)) ==>
                r.Done? && Parted(lt, a[..], P, lo, i, j, up)
    {
      r, i, j := Scan(P, lo, i0, j0, up);
      if r.Done? {
        Place(P, lo, i0, j0, i, j, up);
      }
    }

    /** What follows the scans. */
    method Place(P: T, lo: nat, ghost i0: nat, ghost j0: nat, i: nat, j: nat, up: nat)
      requires lo <= i0 <= j0 < up && i0 < i < up < a.Length && lo <= j < j0 && a[up - 1] == P
      modifies a, this`seen
      ensures SeenIn(old(seen), seen, lo, up)
      ensures Shuffled(old(a[..]), a[..], lo + 1, up - 1) && a[if j < i then i else up - 1] == P
      ensures IsOrder(cmp, lt) && old(Between(lt, a[..], P, lo, i0, j0, up)) &&
              old(Scanned(lt, a[..], P, lo, i0, j0, i, j, up)) ==>
                Parted(lt, a[..], P, lo, i, j, up)
    {
      ghost var s := a[..];
      ghost var ordered := IsOrder(cmp, lt) && Between(lt, s, P, lo, i0, j0, up) &&
        Scanned(lt, s, P, lo, i0, j0, i, j, up);
      if j < i {
        Swap(up - 1, i, lo + 1, up - 1);
        if ordered { Separated(cmp, lt, s, P, lo, i0, j0, i, j, up); }
      } else {
        Swap(i, j, lo + 1, up - 1);
        if ordered { Exchanged(cmp, lt, s, P, lo, i0, j0, i, j, up); }
      }
    }

    /** choosePivot: an element of the second or third quarter. */
    method ChoosePivot(lo: nat, up: nat, rnd: nat) returns (p: nat)
      requires lo + RANLIMIT <= up
      ensures lo + (up - lo) / 4 <= p <= up - (up - lo) / 4
    {
      var r4 := (up - lo) / 4;
      p := rnd % (r4 * 2) + (lo + r4);
    }

    /** The pivot candidate `p` goes between the first and the last element. */
    method PlaceMiddle(lo: nat, p: nat, up: nat) returns (r: Outcome)
      requires lo < p < up < a.Length
      modifies a, this`calls, this`seen, this`log
      ensures Ends(old(log), log, r) && (old(Recorded()) ==> Recorded())
      ensures Shuffled(old(a[..]), a[..], lo, up) && SeenIn(old(seen), seen, lo, up)
      ensures IsOrder(cmp, lt) && old(!lt(a[up], a[lo])) ==>
                r.Done? && !lt(a[up], a[lo]) && !lt(a[p], a[lo]) && !lt(a[up], a[p])
    {
      ghost var s := a[..];
      var c := Arrange(lo, p, lo, up);
      if c.None? { return Raised; }
      if c == Some(true) {
        assert a[lo] == s[p] && a[p] == s[lo] && a[up] == s[up];
        return Done;
      }
      ghost var s1, log1 := a[..], log;
      c := Arrange(p, up, lo, up);
      ShuffledTransitive(s, s1, a[..], lo, up, lo, up);
      assert c == Some(true) ==> a[lo] == s[lo] && a[p] == s[up] && a[up] == s[p];
      r := if c.None? then Raised else Done;
      EndsTransitive(old(log), log1, log, r);
    }

    /** Elements `lo`, `p` and `up` are put in order; with only two elements there is
        no `p`, with three they are all. */
    method MedianOfThree(lo: nat, up: nat, rnd: nat) returns (r: Outcome, p: nat)
      requires 1 <= lo < up < a.Length
      modifies a, this`calls, this`seen, this`log
      ensures Ends(old(log), log, r) && (old(Recorded()) ==> Recorded())
      ensures Shuffled(old(a[..]), a[..], lo, up) && SeenIn(old(seen), seen, lo, up)
      ensures r.Done? && up - lo > 1 ==> lo < p < up
      ensures r.Done? && up - lo > 1 ==>
                if up - lo < RANLIMIT || rnd == 0 then p == (lo + up) / 2
                else lo + (up - lo) / 4 <= p <= up - (up - lo) / 4
      ensures IsOrder(cmp, lt) ==>
                r.Done? && !lt(a[up], a[lo]) && (up - lo > 1 ==> !lt(a[p], a[lo]) && !lt(a[up], a[p]))
    {
      ghost var s := a[..];
      var c := Arrange(lo, up, lo, up);
      if c.None? { return Raised, lo; }
      if up - lo == 1 { return Done, lo; }
      if up - lo < RANLIMIT || rnd == 0 {
        p := (lo + up) / 2;
      } else {
        p := ChoosePivot(lo, up, rnd);
      }
      ghost var s1, log1 := a[..], log;
      r := PlaceMiddle(lo, p, up);
      EndsTransitive(old(log), log1, log, r);
      ShuffledTransitive(s, s1, a[..], lo, up, lo, up);
    }

    /** One round of auxsort before the recursive call: three elements in order, then
        the partition. `p` is where the pivot ends up; None when all is sorted. */
    method Round(lo: nat, up: nat, rnd: nat) returns (r: Outcome, p: Option<nat>)
      requires 1 <= lo < up < a.Length
      modifies a, this`calls, this`seen, this`log
      ensures Ends(old(log), log, r) && (old(Recorded()) ==> Recorded())
      ensures Shuffled(old(a[..]), a[..], lo, up) && SeenIn(old(seen), seen, lo, up)
      ensures r.Done? && p.Some? ==> lo < p.value < up
      ensures r.Done? && p.None? ==> up - lo <= 2
      ensures IsOrder(cmp, lt) ==>
                r.Done? && if p.Some? then Pivoted(lt, a[..], lo, up, p.value) else Sorted(lt, a[..], lo, up)
    {
      ghost var s := a[..];
      var m;
      r, m := MedianOfThree(lo, up, rnd);
      p := None;
      if !r.Done? || up - lo <= 2 { return; }
      ghost var s1, log1 := a[..], log;
      var i;
      r, i := PartitionAround(lo, m, up);
      EndsTransitive(old(log), log1, log, r);
      ShuffledTransitive(s, s1, a[..], lo, up, lo, up);
      p := Some(i);
    }

    /** The pivot `m` goes next to the last element for the partition. */
    method PartitionAround(lo: nat, m: nat, up: nat) returns (r: Outcome, i: nat)
      requires 1 <= lo < m < up < a.Length && up - lo > 2
      modifies a, this`calls, this`seen, this`log
      ensures Ends(old(log), log, r) && (old(Recorded()) ==> Recorded())
      ensures Shuffled(old(a[..]), a[..], lo, up) && SeenIn(old(seen), seen, lo, up)
      ensures r.Done? ==> lo < i < up
      ensures Ordered(old(a[m]), old(a[lo]), old(a[up])) ==> r.Done? && Pivoted(lt, a[..], lo, up, i)
    {
      ghost var s := a[..];
      Swap(m, up - 1, lo, up);
      ghost var s1 := a[..];
      r, i := Partition(lo, up);
      ShuffledTransitive(s, s1, a[..], lo, up, lo + 1, up - 1);
    }

    /** auxsort. The depth of the recursion is bounded by the logarithm of the size,
        as only the smaller part is sorted by a recursive call. */
    method AuxSort(lo0: nat, up0: nat, rnd0: nat, ghost depth: nat) returns (r: Outcome)
      requires 1 <= lo0 <= up0 + 1 <= a.Length && up0 - lo0 + 1 <= Pow2(depth)
      modifies a, this`calls, this`seen, this`log
      ensures Ends(old(log), log, r) && (old(Recorded()) ==> Recorded())
      ensures Shuffled(old(a[..]), a[..], lo0, up0) && SeenIn(old(seen), seen, lo0, up0)
      ensures IsOrder(cmp, lt) ==> r.Done? && Sorted(lt, a[..], lo0, up0)
      decreases depth, 1
    {
      ghost var s := a[..];
      var lo, up, rnd := lo0, up0, rnd0;
      SettledWhole(lt, s, lo, up);
      while lo < up
        invariant lo0 <= lo && up <= up0 && 1 <= lo <= up + 1 && Shuffled(s, a[..], lo0, up0)
        invariant SeenIn(old(seen), seen, lo0, up0)
        invariant Ends(old(log), log, Done) && (old(Recorded()) ==> Recorded())
        invariant IsOrder(cmp, lt) ==> Settled(lt, a[..], lo0, up0, lo, up)
        decreases up - lo
      {
        ghost var s1, log1, lo1, up1 := a[..], log, lo, up;
        var p;
        r, p := Round(lo, up, rnd);
        ghost var s2, log2 := a[..], log;
        EndsTransitive(old(log), log1, log2, r);
        ShuffledTransitive(s, s1, s2, lo0, up0, lo, up);
        if !r.Done? { return; }
        if IsOrder(cmp, lt) { ShuffleKeepsSettled(lt, s1, s2, lo0, up0, lo, up); }
        if p.None? {
          if IsOrder(cmp, lt) { SortedInside(lt, s2, lo0, up0, lo, up); }
          return;
        }
        var n;
        r, lo, up, n := SortSmaller(lo, up, p.value, rnd, lo0, up0, depth);
        EndsTransitive(old(log), log2, log, r);
        ShuffledTransitive(s, s2, a[..], lo0, up0, lo1, up1);
        if !r.Done? { return; }
        if (up - lo) / 128 > n {
          rnd := random(calls);
        }
      }
      if IsOrder(cmp, lt) { SettledIsSorted(lt, a[..], lo0, up0, lo, up); }
      r := Done;
    }

    /** The rest of a round of auxsort: the recursive call for the smaller part around
        the pivot. What is left to be sorted is from `lo'` to `up'`; `n` is the size of
        the smaller part. */
    method SortSmaller(lo: nat, up: nat, p: nat, rnd: nat, ghost lo0: nat, ghost up0: nat, ghost depth: nat)
      returns (r: Outcome, lo': nat, up': nat, n: nat)
      requires 1 <= lo0 <= lo < p < up <= up0 < a.Length && up - lo + 1 <= Pow2(depth)
      requires IsOrder(cmp, lt) ==> Settled(lt, a[..], lo0, up0, lo, up) && Pivoted(lt, a[..], lo, up, p)
      modifies a, this`calls, this`seen, this`log
      ensures Ends(old(log), log, r) && (old(Recorded()) ==> Recorded())
      ensures Shuffled(old(a[..]), a[..], lo, up) && SeenIn(old(seen), seen, lo, up)
      ensures lo <= lo' <= up' + 1 && up' <= up && up' - lo' < up - lo
      ensures n + (up' - lo' + 1) == up - lo && n <= up' - lo' + 1
      ensures IsOrder(cmp, lt) ==> r.Done? && Settled(lt, a[..], lo0, up0, lo', up')
      decreases depth, 0
    {
      ghost var s := a[..];
      HalfFits(up - lo, depth);
      if p - lo < up - p {
        r := AuxSort(lo, p - 1, rnd, depth - 1);
        ShuffledTransitive(s, s, a[..], lo, up, lo, p - 1);
        if IsOrder(cmp, lt) { LowerDone(cmp, lt, s, a[..], lo0, up0, lo, up, p); }
        lo', up', n := p + 1, up, p - lo;
      } else {
        r := AuxSort(p + 1, up, rnd, depth - 1);
        ShuffledTransitive(s, s, a[..], lo, up, p + 1, up);
        if IsOrder(cmp, lt) { UpperDone(cmp, lt, s, a[..], lo0, up0, lo, up, p); }
        lo', up', n := lo, p - 1, up - p;
      }
    }

    /** table.sort: elements 1 to n. Whatever the order function answers, the sort
        ends with the same elements in the table: at its first error, with that error;
        when a scan is told to go on past its bound, as an invalid order function; and
        else when it is done. If the order function is a strict weak order there is no
        error and the elements are in order. */
    method Sort() returns (r: Outcome)
      requires a.Length >= 1
      modifies a, this`calls, this`seen, this`log
      ensures old(log) <= log && (old(Recorded()) ==> Recorded())
      ensures forall k :: |old(log)| <= k < |log| - 1 ==> log[k].answer.Some? && !GoesPast(log[k])
      ensures r.Raised? <==> |log| > |old(log)| && log[|log| - 1].answer.None?
      ensures r.InvalidOrder? <==> |log| > |old(log)| && GoesPast(log[|log| - 1])
      ensures Shuffled(old(a[..]), a[..], 1, a.Length - 1) && SeenIn(old(seen), seen, 1, a.Length - 1)
      ensures IsOrder(cmp, lt) ==> r.Done? && Sorted(lt, a[..], 1, a.Length - 1)
    {
      var n := a.Length - 1;
      r := Done;
      if n > 1 {
        ghost var depth := Log2Up(n);
        r := AuxSort(1, n, 0, depth);
        SortEnds(old(log), log, r);
      }
    }

    /** The order function is an order, in which `x` is not above the pivot and `y`
        not below. */
    ghost predicate Ordered(P: T, x: T, y: T) {
      IsOrder(cmp, lt) && !lt(P, x) && !lt(y, P)
    }
  }

  /** Only elements of [lo, up] have been touched since. */
  ghost predicate SeenIn(seen: set<int>, seen': set<int>, lo: int, up: int) {
    forall k :: k in seen' && k !in seen ==> lo <= k <= up
  }

  /** The least depth that is enough for `n` elements. */
  function Log2Up(n: nat): (d: nat)
    ensures n <= Pow2(d) && (d > 0 ==> Pow2(d - 1) < n)
  {
    if n <= 1 then 0 else Log2Up((n + 1) / 2) + 1
  }

  /** The smaller of two parts around a pivot fits in half the depth. */
  lemma HalfFits(n: nat, depth: nat)
    requires n >= 1 && n + 1 <= Pow2(depth)
    ensures depth > 0 && forall k: nat :: 2 * k <= n ==> k <= Pow2(depth - 1)
  {
  }
}
