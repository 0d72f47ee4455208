/** Interned strings (src/lstring.c): a table of linked lists, resized in place. */
module StringTable {
  import opened LuaValues
  import opened DumpFormat
  import opened Powers
  import ID = IntegerDivision

  type Ref = nat
  const NULL: Ref := 0

  datatype TString = TString(hash: nat, contents: Bytes)

  /** `c` is the list from `p` on. */
  ghost predicate List(p: Ref, hnext: map<Ref, Ref>, c: seq<Ref>)
    decreases c
  {
    if c == [] then p == NULL else p == c[0] != NULL && p in hnext && List(hnext[p], hnext, c[1..])
  }

  lemma {:induction false} ListFrame(p: Ref, hnext: map<Ref, Ref>, c: seq<Ref>, q: Ref, x: Ref)
    requires List(p, hnext, c) && q !in c
    ensures List(p, hnext[q := x], c)
    decreases c
  {
    if c != [] { ListFrame(hnext[p], hnext, c[1..], q, x); }
  }

  lemma {:induction false} ListFrom(p: Ref, hnext: map<Ref, Ref>, c: seq<Ref>, k: nat)
    requires List(p, hnext, c) && k < |c|
    ensures c[k] in hnext && c[k] != NULL && List(hnext[c[k]], hnext, c[k + 1..])
    decreases c
  {
    if k > 0 {
      ListFrom(hnext[p], hnext, c[1..], k - 1);
      assert c[1..][k..] == c[k + 1..];
    }
  }

  /** Taking out an element that has one before it. */
  lemma {:induction false} ListUnlink(p: Ref, hnext: map<Ref, Ref>, c: seq<Ref>, k: nat)
    requires List(p, hnext, c) && NoDup(c) && 0 < k < |c| && c[k] in hnext
    ensures List(p, hnext[c[k - 1] := hnext[c[k]]], Without(c, k))
    decreases c
  {
    var d, x := Without(c, k), hnext[c[k]];
    if k == 1 {
      ListFrom(p, hnext, c, 1);
      ListFrame(x, hnext, c[2..], c[0], x);
      assert d[1..] == c[2..];
    } else {
      ListUnlink(hnext[p], hnext, c[1..], k - 1);
      assert d[1..] == Without(c[1..], k - 1);
    }
  }

  ghost predicate NoDup(c: seq<Ref>) {
    forall i, j :: 0 <= i < j < |c| ==> c[i] != c[j]
  }

  /** Each bucket has its list. */
  ghost predicate Shape(hash: seq<Ref>, hnext: map<Ref, Ref>, chains: seq<seq<Ref>>) {
    |hash| == |chains| && forall b {:trigger List(hash[b], hnext, chains[b])} :: 0 <= b < |hash| ==>
      List(hash[b], hnext, chains[b])
  }

  /** The list `c` has exactly the strings that are at `b`. */
  ghost predicate Has(c: seq<Ref>, at: map<Ref, int>, b: int) {
    NoDup(c) && forall r {:trigger r in c} {:trigger at[r]} :: r in c <==> r in at && at[r] == b
  }

  ghost predicate Placed(chains: seq<seq<Ref>>, at: map<Ref, int>) {
    && (forall b {:trigger Has(chains[b], at, b)} :: 0 <= b < |chains| ==> Has(chains[b], at, b))
    && forall r :: r in at ==> at[r] < |chains|
  }

  ghost predicate Table(hash: seq<Ref>, hnext: map<Ref, Ref>, chains: seq<seq<Ref>>, at: map<Ref, int>) {
    hash == [] || (Shape(hash, hnext, chains) && Placed(chains, at))
  }

  function And(a: nat, b: nat): (r: nat)
    ensures r <= b
  {
    if a == 0 || b == 0 then 0 else (if b % 2 == 1 then a % 2 else 0) + 2 * And(a / 2, b / 2)
  }

  /** The bucket of a hash: its low bits, as sizes are powers of two. */
  function Lmod(h: nat, size: nat): (b: nat)
    requires size > 0
    ensures b < size
  {
    And(h, size - 1)
  }

  lemma {:induction false} LmodIsRemainder(h: nat, k: nat)
    ensures Lmod(h, Pow2(k)) == h % Pow2(k)
  {
    if k > 0 {
      LmodIsRemainder(h / 2, k - 1);
      LmodStep(h, Pow2(k - 1));
    }
  }

  lemma LmodStep(h: nat, p: nat)
    requires p > 0 && Lmod(h / 2, p) == h / 2 % p
    ensures Lmod(h, 2 * p) == h % (2 * p)
  {
    HalfRemainder(h, p);
    AndOdd(h, p);
  }

  lemma AndOdd(h: nat, p: nat)
    requires p > 0
    ensures And(h, 2 * p - 1) == h % 2 + 2 * And(h / 2, p - 1)
  {
    assert (2 * p - 1) % 2 == 1 && (2 * p - 1) / 2 == p - 1;
  }

  lemma HalfRemainder(h: nat, p: nat)
    requires p > 0
    ensures h % (2 * p) == h % 2 + 2 * (h / 2 % p)
  {
    ID.Division(h / 2, p);
    ID.Division(h, 2 * p);
    HalfFloor(h, p, h / 2 / p, h / 2 % p);
    ID.FloorUnique(h, 2 * p, h / 2 / p, h % 2 + 2 * (h / 2 % p), h / (2 * p), h % (2 * p));
  }

  lemma HalfFloor(h: nat, p: nat, q: nat, r: nat)
    requires h / 2 == p * q + r && r < p
    ensures ID.IsFloor(h, 2 * p, q, h % 2 + 2 * r)
  {
    assert 2 * p * q == 2 * (p * q);
  }

  /** Where the strings belong. */
  ghost function Homes(strings: map<Ref, TString>, size: nat): map<Ref, int>
    requires size > 0
  {
    map r | r in strings :: Lmod(strings[r].hash, size)
  }

  /** A loose string goes to the front of a list. */
  lemma Chain(hash: seq<Ref>, hnext: map<Ref, Ref>, chains: seq<seq<Ref>>, at: map<Ref, int>, h: nat, p: Ref)
    requires Table(hash, hnext, chains, at) && h < |hash| && p != NULL
    requires p in at ==> at[p] < 0
    ensures Table(hash[h := p], hnext[p := hash[h]], chains[h := [p] + chains[h]], at[p := h])
  {
    var hnext1, chains1, at1 := hnext[p := hash[h]], chains[h := [p] + chains[h]], at[p := h];
    forall b | 0 <= b < |hash|
      ensures List(hash[h := p][b], hnext1, chains1[b]) && Has(chains1[b], at1, b)
    {
      assert Has(chains[b], at, b);
      ListFrame(hash[b], hnext, chains[b], p, hash[h]);
      if b == h { assert chains1[h][1..] == chains[h]; }
    }
  }

  ghost predicate AtHome(strings: map<Ref, TString>, size: nat, at: map<Ref, int>, r: Ref)
    requires size > 0 && r in strings && r in at
  {
    at[r] == Lmod(strings[r].hash, size)
  }

  /** No two strings have the same contents. */
  ghost predicate Interned(hashOf: Bytes -> nat, strings: map<Ref, TString>, nuse: nat, last: Ref) {
    && nuse == |strings|
    && (forall r :: r in strings ==> NULL < r <= last && strings[r].hash == hashOf(strings[r].contents))
    && (forall r, s {:trigger Same(strings, r, s)} :: r in strings && s in strings && Same(strings, r, s) ==> r == s)
  }

  ghost predicate Same(strings: map<Ref, TString>, r: Ref, s: Ref)
    requires r in strings && s in strings
  {
    strings[r].contents == strings[s].contents
  }

  lemma AddInterned(hashOf: Bytes -> nat, strings: map<Ref, TString>, nuse: nat, last: Ref, str: Bytes)
    requires Interned(hashOf, strings, nuse, last) && NotThere(strings, str)
    ensures last + 1 !in strings && Interned(hashOf, strings[last + 1 := TString(hashOf(str), str)], nuse + 1, last + 1)
  {
    forall r, s | r in strings && s in strings && strings[r].contents == strings[s].contents ensures r == s {
      assert Same(strings, r, s);
    }
  }

  lemma RemoveInterned(hashOf: Bytes -> nat, strings: map<Ref, TString>, nuse: nat, last: Ref, ts: Ref)
    requires Interned(hashOf, strings, nuse, last) && ts in strings
    ensures nuse > 0 && Interned(hashOf, strings - {ts}, nuse - 1, last)
  {
    forall r, s | r in strings && s in strings && strings[r].contents == strings[s].contents ensures r == s {
      assert Same(strings, r, s);
    }
    assert (strings - {ts}).Keys == strings.Keys - {ts};
    assert |strings| == |strings.Keys| && |strings - {ts}| == |(strings - {ts}).Keys|;
  }

  lemma AddTable(hash: seq<Ref>, hnext: map<Ref, Ref>, chains: seq<seq<Ref>>, strings: map<Ref, TString>, ts: Ref,
                 t: TString)
    requires |hash| > 0 && Table(hash, hnext, chains, Homes(strings, |hash|)) && ts !in strings && ts != NULL
    ensures
      var b := Lmod(t.hash, |hash|);
      |chains| == |hash| && Table(hash[b := ts], hnext[ts := hash[b]], chains[b := [ts] + chains[b]],
                                  Homes(strings[ts := t], |hash|))
  {
    var b := Lmod(t.hash, |hash|);
    Chain(hash, hnext, chains, Homes(strings, |hash|), b, ts);
    assert Homes(strings, |hash|)[ts := b] == Homes(strings[ts := t], |hash|);
  }

  ghost predicate NotThere(strings: map<Ref, TString>, str: Bytes) {
    forall r :: r in strings ==> strings[r].contents != str
  }

  ghost predicate StringsOk(hashOf: Bytes -> nat, hash: seq<Ref>, hnext: map<Ref, Ref>, chains: seq<seq<Ref>>,
                            strings: map<Ref, TString>, nuse: nat, last: Ref)
  {
    hash == [] || (Table(hash, hnext, chains, Homes(strings, |hash|)) && Interned(hashOf, strings, nuse, last))
  }

  lemma AddOk(hashOf: Bytes -> nat, hash: seq<Ref>, hnext: map<Ref, Ref>, chains: seq<seq<Ref>>,
              strings: map<Ref, TString>, nuse: nat, last: Ref, str: Bytes)
    requires |hash| == |chains| > 0 && StringsOk(hashOf, hash, hnext, chains, strings, nuse, last) &&
             NotThere(strings, str)
    ensures
      var b, ts := Lmod(hashOf(str), |hash|), last + 1;
      && ts !in strings
      && StringsOk(hashOf, hash[b := ts], hnext[ts := hash[b]], chains[b := [ts] + chains[b]],
                   strings[ts := TString(hashOf(str), str)], nuse + 1, ts)
  {
    AddInterned(hashOf, strings, nuse, last, str);
    AddTable(hash, hnext, chains, strings, last + 1, TString(hashOf(str), str));
  }

  lemma RemoveOk(hashOf: Bytes -> nat, hash: seq<Ref>, hnext: map<Ref, Ref>, chains: seq<seq<Ref>>,
                 strings: map<Ref, TString>, nuse: nat, last: Ref, b: nat, k: nat)
    requires |hash| == |chains| > 0 && StringsOk(hashOf, hash, hnext, chains, strings, nuse, last)
    requires b < |hash| && k < |chains[b]|
    ensures chains[b][k] in hnext && nuse > 0
    ensures
      var ts, chains1 := chains[b][k], chains[b := Without(chains[b], k)];
      if k == 0 then StringsOk(hashOf, hash[b := hnext[ts]], hnext, chains1, strings - {ts}, nuse - 1, last)
      else StringsOk(hashOf, hash, hnext[chains[b][k - 1] := hnext[ts]], chains1, strings - {ts}, nuse - 1, last)
  {
    Unlinked(hash, hnext, chains, strings, b, k);
    assert Has(chains[b], Homes(strings, |hash|), b) && chains[b][k] in chains[b];
    RemoveInterned(hashOf, strings, nuse, last, chains[b][k]);
  }

  /** Where the string `ts` is in its list. */
  lemma InBucket(hashOf: Bytes -> nat, hash: seq<Ref>, hnext: map<Ref, Ref>, chains: seq<seq<Ref>>,
                 strings: map<Ref, TString>, nuse: nat, last: Ref, b: nat)
    requires |hash| == |chains| > 0 && StringsOk(hashOf, hash, hnext, chains, strings, nuse, last) && b < |hash|
    ensures List(hash[b], hnext, chains[b]) && chains[b][0..] == chains[b]
    ensures forall k :: 0 <= k < |chains[b]| ==> chains[b][k] in strings
    ensures forall ts :: ts in strings && Lmod(strings[ts].hash, |hash|) == b ==> ts in chains[b]
    ensures forall ts :: ts in strings && Lmod(hashOf(strings[ts].contents), |hash|) == b ==> ts in chains[b]
  {
    var at := Homes(strings, |hash|);
    assert Has(chains[b], at, b);
    forall k | 0 <= k < |chains[b]| ensures chains[b][k] in strings {
      assert chains[b][k] in chains[b];
    }
    forall ts | ts in strings && Lmod(strings[ts].hash, |hash|) == b ensures ts in chains[b] {
      assert at[ts] == b;
    }
  }

  /** The table doubles before it has more strings than buckets. */
  function GrownSize(size: nat, nuse: nat): (r: nat)
    ensures size > 0 && nuse <= size <= MAX_INT / 2 ==> nuse < r
  {
    if nuse >= size && size <= MAX_INT / 2 then 2 * size else size
  }

  class Strt {
    const hashOf: Bytes -> nat  // luaS_hash with the state's seed
    var hash: seq<Ref>
    var hnext: map<Ref, Ref>
    var strings: map<Ref, TString>  // the short strings
    var nuse: nat
    var dead: set<Ref>  // strings with the white of the last cycle
    var last: Ref  // the newest string
    ghost var chains: seq<seq<Ref>>

    /** Every short string is in its bucket exactly once, and equal strings are the
        same; `nuse` counts them. */
    ghost predicate Valid()
      reads this
    {
      |hash| == |chains| > 0 && StringsOk(hashOf, hash, hnext, chains, strings, nuse, last)
    }

    /** luaS_init */
    constructor (hashOf: Bytes -> nat)
      ensures Valid() && this.hashOf == hashOf && strings == map[] && dead == {}
    {
      this.hashOf := hashOf;
      hash, chains := seq(128, _ => NULL), seq(128, _ => []);
      hnext, strings, nuse, dead, last := map[], map[], 0, {}, NULL;
    }

    /** luaS_resize: every string is in its new bucket, none is lost when the table
        shrinks. */
    method Resize(newsize: nat)
      requires Valid() && newsize > 0
      modifies this`hash, this`hnext, this`chains
      ensures Valid() && |hash| == newsize
    {
      var size := |hash|;
      ghost var at := Homes(strings, size);
      if newsize > size {
        hash := hash + seq(newsize - size, _ => NULL);
        chains := chains + seq(newsize - size, _ => []);
      }
      var i := 0;
      while i < size
        invariant 0 <= i <= size && |hash| >= newsize && |hash| >= size && (|hash| == size || |hash| == newsize)
        invariant Table(hash, hnext, chains, at) && at.Keys == strings.Keys
        invariant forall r :: r in at ==> AtHome(strings, newsize, at, r) || i <= at[r] < size
      {
        at := MoveBucket(newsize, size, i, at);
        i := i + 1;
      }
      Settled(chains, at, strings, newsize);
      if newsize < size {
        hash, chains := hash[..newsize], chains[..newsize];
      }
    }

    /** The strings of bucket `i` go where they belong. */
    method MoveBucket(newsize: nat, size: nat, i: nat, ghost at: map<Ref, int>) returns (ghost at1: map<Ref, int>)
      requires |hash| >= newsize > 0 && i < size <= |hash|
      requires Table(hash, hnext, chains, at) && at.Keys == strings.Keys
      requires forall r :: r in at ==> AtHome(strings, newsize, at, r) || i <= at[r] < size
      modifies this`hash, this`hnext, this`chains
      ensures |hash| == |old(hash)|
      ensures Table(hash, hnext, chains, at1) && at1.Keys == strings.Keys
      ensures forall r :: r in at1 ==> AtHome(strings, newsize, at1, r) || i < at1[r] < size
    {
      var p := hash[i];
      ghost var rest := chains[i];
      at1 := Loose(chains, at, i);
      hash, chains := hash[i := NULL], chains[i := []];
      while p != NULL
        invariant |hash| == |old(hash)| == |chains|
        invariant Table(hash, hnext, chains, at1) && at1.Keys == strings.Keys
        invariant List(p, hnext, rest) && Has(rest, at1, -1)
        invariant forall r :: r in at1 ==> at1[r] == -1 || AtHome(strings, newsize, at1, r) || i < at1[r] < size
        decreases |rest|
      {
        assert p in rest;
        var next := hnext[p];
        var h := Lmod(strings[p].hash, newsize);
        MoveOne(hash, hnext, chains, rest, at1, h, p);
        hnext, chains := hnext[p := hash[h]], chains[h := [p] + chains[h]];
        hash := hash[h := p];
        at1, rest := at1[p := h], rest[1..];
        p := next;
      }
      assert rest == [];
    }

    /** internshrstr: the string with these contents, the old one if there is one. */
    method Intern(str: Bytes) returns (ts: Ref)
      requires Valid()
      modifies this
      ensures Valid() && ts in strings && strings[ts].contents == str && ts !in dead
      ensures if exists r :: r in old(strings) && old(strings)[r].contents == str
              then strings == old(strings) && dead == old(dead) - {ts} && hash == old(hash)
              else
                && |hash| == GrownSize(old(|hash|), old(nuse)) && nuse == old(nuse) + 1
                && ts !in old(strings) && strings == old(strings)[ts := TString(hashOf(str), str)]
                && dead == old(dead) - {ts}
      ensures old(nuse) <= old(|hash|) <= MAX_INT / 2 ==> nuse <= |hash|
    {
      var h := hashOf(str);
      var b := Lmod(h, |hash|);
      InBucket(hashOf, hash, hnext, chains, strings, nuse, last, b);
      ts := hash[b];
      ghost var k := 0;
      while ts != NULL
        invariant k <= |chains[b]| && List(ts, hnext, chains[b][k..])
        invariant forall j :: 0 <= j < k ==> strings[chains[b][j]].contents != str
        decreases |chains[b]| - k
      {
        assert ts == chains[b][k] && chains[b][k..][1..] == chains[b][k + 1..];
        if strings[ts].contents == str {
          dead := dead - {ts};
          return;
        }
        ts := hnext[ts];
        k := k + 1;
      }
      if nuse >= |hash| && |hash| <= MAX_INT / 2 {
        Resize(|hash| * 2);
      }
      ts := Add(h, str);
    }

    /** A new string, in front of its list. */
    method Add(h: nat, str: Bytes) returns (ts: Ref)
      requires Valid() && h == hashOf(str) && NotThere(strings, str)
      modifies this
      ensures Valid() && ts !in old(strings) && strings == old(strings)[ts := TString(h, str)] &&
              dead == old(dead) - {ts} && |hash| == |old(hash)| && nuse == old(nuse) + 1
    {
      AddOk(hashOf, hash, hnext, chains, strings, nuse, last, str);
      ts := last + 1;
      var b := Lmod(h, |hash|);
      hash, hnext, chains := hash[b := ts], hnext[ts := hash[b]], chains[b := [ts] + chains[b]];
      strings, last, nuse, dead := strings[ts := TString(h, str)], ts, nuse + 1, dead - {ts};
    }

    /** luaS_remove, called by the sweep */
    method Remove(ts: Ref)
      requires Valid() && ts in strings
      modifies this
      ensures Valid() && strings == old(strings) - {ts} && dead == old(dead) - {ts}
    {
      var b := Lmod(strings[ts].hash, |hash|);
      var prev;
      ghost var k;
      prev, k := FindLink(ts, b);
      RemoveOk(hashOf, hash, hnext, chains, strings, nuse, last, b, k);
      chains := chains[b := Without(chains[b], k)];
      if prev == NULL {
        hash := hash[b := hnext[ts]];
      } else {
        hnext := hnext[prev := hnext[ts]];
      }
      strings, dead, nuse := strings - {ts}, dead - {ts}, nuse - 1;
    }

    /** The link to a string: the field of the string `prev`, or the bucket. */
    method FindLink(ts: Ref, b: nat) returns (prev: Ref, ghost k: nat)
      requires Valid() && ts in strings && b == Lmod(strings[ts].hash, |hash|)
      ensures k < |chains[b]| && chains[b][k] == ts
      ensures if k == 0 then prev == NULL else prev == chains[b][k - 1] && prev != NULL
    {
      InBucket(hashOf, hash, hnext, chains, strings, nuse, last, b);
      var p := hash[b];
      prev, k := NULL, 0;
      while p != ts
        invariant k < |chains[b]| && p == chains[b][k] && ts in chains[b][k..]
        invariant List(p, hnext, chains[b][k..])
        invariant if k == 0 then prev == NULL else prev == chains[b][k - 1] && prev != NULL
        decreases |chains[b]| - k
      {
        assert chains[b][k..][1..] == chains[b][k + 1..];
        prev := p;
        p := hnext[p];
        k := k + 1;
      }
    }

    /** checkSizes: a table with room for four times its strings is halved. */
    method CheckSizes()
      requires Valid()
      modifies this`hash, this`hnext, this`chains
      ensures Valid()
      ensures |hash| == if nuse < |old(hash)| / 4 then |old(hash)| / 2 else |old(hash)|
    {
      if nuse < |hash| / 4 {
        Resize(|hash| / 2);
      }
    }
  }

  /** The strings of bucket `i` are taken out. */
  lemma Loose(chains: seq<seq<Ref>>, at: map<Ref, int>, i: nat) returns (at1: map<Ref, int>)
    requires Placed(chains, at) && i < |chains| && (forall r :: r in at ==> at[r] >= 0)
    ensures at1 == map r | r in at :: if at[r] == i then -1 else at[r]
    ensures Placed(chains[i := []], at1) && Has(chains[i], at1, -1)
  {
    at1 := map r | r in at :: if at[r] == i then -1 else at[r];
    var chains1 := chains[i := []];
    assert Has(chains[i], at, i);
    forall b | 0 <= b < |chains| ensures Has(chains1[b], at1, b) {
      assert Has(chains[b], at, b);
    }
  }

  /** The first of the loose strings is chained. */
  lemma MoveOne(hash: seq<Ref>, hnext: map<Ref, Ref>, chains: seq<seq<Ref>>, rest: seq<Ref>, at: map<Ref, int>, h: nat,
                p: Ref)
    requires Table(hash, hnext, chains, at) && h < |hash|
    requires p != NULL && List(p, hnext, rest) && Has(rest, at, -1)
    ensures Table(hash[h := p], hnext[p := hash[h]], chains[h := [p] + chains[h]], at[p := h])
    ensures List(hnext[p], hnext[p := hash[h]], rest[1..]) && Has(rest[1..], at[p := h], -1)
  {
    assert p in rest;
    Chain(hash, hnext, chains, at, h, p);
    ListFrame(hnext[p], hnext, rest[1..], p, hash[h]);
    assert rest == [p] + rest[1..];
  }

  /** When every string is at home, the buckets that are to vanish are empty. */
  lemma Settled(chains: seq<seq<Ref>>, at: map<Ref, int>, strings: map<Ref, TString>, newsize: nat)
    requires Placed(chains, at) && at.Keys == strings.Keys && 0 < newsize <= |chains|
    requires forall r :: r in at ==> AtHome(strings, newsize, at, r)
    ensures at == Homes(strings, newsize) && Placed(chains[..newsize], at)
    ensures forall b :: newsize <= b < |chains| ==> chains[b] == []
  {
    forall b | newsize <= b < |chains| ensures chains[b] == [] {
      Nobody(chains[b], at, b);
    }
  }

  lemma Nobody(c: seq<Ref>, at: map<Ref, int>, b: int)
    requires Has(c, at, b) && forall r :: r in at ==> at[r] != b
    ensures c == []
  {
    HasFirst(c);
  }

  lemma HasFirst(c: seq<Ref>)
    ensures c == [] || c[0] in c
  {
  }

  lemma Unlinked(hash: seq<Ref>, hnext: map<Ref, Ref>, chains: seq<seq<Ref>>, strings: map<Ref, TString>, b: nat,
                 k: nat)
    requires |hash| > 0 && Table(hash, hnext, chains, Homes(strings, |hash|))
    requires b < |hash| == |chains| && k < |chains[b]|
    ensures chains[b][k] in hnext
    ensures
      var chains1 := chains[b := Without(chains[b], k)];
      var at1 := Homes(strings - {chains[b][k]}, |hash|);
      if k == 0 then Table(hash[b := hnext[chains[b][0]]], hnext, chains1, at1)
      else Table(hash, hnext[chains[b][k - 1] := hnext[chains[b][k]]], chains1, at1)
  {
    var c, at := chains[b], Homes(strings, |hash|);
    assert Has(c, at, b);
    ListFrom(hash[b], hnext, c, k);
    WithoutHas(c, k);
    PlacedWithout(chains, strings, |hash|, b, k);
    if k == 0 {
      assert Without(c, 0) == c[1..];
    } else {
      ListUnlink(hash[b], hnext, c, k);
      forall a | 0 <= a < |hash| && a != b ensures List(hash[a], hnext[c[k - 1] := hnext[c[k]]], chains[a]) {
        assert Has(chains[a], at, a);
        ListFrame(hash[a], hnext, chains[a], c[k - 1], hnext[c[k]]);
      }
    }
  }

  function Without(c: seq<Ref>, k: nat): seq<Ref>
    requires k < |c|
  {
    c[..k] + c[k + 1..]
  }

  lemma WithoutHas(c: seq<Ref>, k: nat)
    requires k < |c| && NoDup(c)
    ensures NoDup(Without(c, k)) && forall r :: r in Without(c, k) <==> r in c && r != c[k]
  {
    forall i | 0 <= i < |c| && i != k ensures c[i] in Without(c, k) {
      assert Without(c, k)[if i < k then i else i - 1] == c[i];
    }
  }

  lemma PlacedWithout(chains: seq<seq<Ref>>, strings: map<Ref, TString>, size: nat, b: nat, k: nat)
    requires size > 0 && Placed(chains, Homes(strings, size)) && b < |chains| && k < |chains[b]|
    ensures Placed(chains[b := Without(chains[b], k)], Homes(strings - {chains[b][k]}, size))
  {
    var c, at, at1 := chains[b], Homes(strings, size), Homes(strings - {chains[b][k]}, size);
    assert at1 == at - {c[k]};
    assert Has(c, at, b);
    WithoutHas(c, k);
    assert c[k] in c;
    HasWithout(c, at, at1, b, b, c[k], Without(c, k));
    forall a | 0 <= a < |chains| && a != b ensures Has(chains[a], at1, a) {
      HasWithout(chains[a], at, at1, b, a, c[k], chains[a]);
    }
  }

  lemma HasWithout(c: seq<Ref>, at: map<Ref, int>, at1: map<Ref, int>, b: int, a: int, x: Ref, c1: seq<Ref>)
    requires Has(c, at, a) && at1 == at - {x} && x in at && at[x] == b && NoDup(c1)
    requires if a == b then forall r :: r in c1 <==> r in c && r != x else c1 == c
    ensures Has(c1, at1, a)
  {
  }
}
