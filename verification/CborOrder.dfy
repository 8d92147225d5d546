/**
 The order `sort_cbor_map` gives to the entries of a map: shorter encoded key first, then
 bytewise; entries with equal keys keep their places. That order is the only one that is both
 sorted and stable, which is what the canonical form rests on.
 */
module CborOrder {
  import opened Bytes
  import opened Folds
  import opened Cbor

  // ---------------------------------------------------------------- the comparator

  predicate ShortLex(a: bytes, b: bytes)
  {
    |a| < |b| || (|a| == |b| && LexLeq(a, b))
  }

  lemma ShortLexTotal(a: bytes, b: bytes)
    ensures ShortLex(a, b) || ShortLex(b, a)
    ensures ShortLex(a, b) && ShortLex(b, a) ==> a == b
  {
    LexTotal(a, b);
  }

  lemma ShortLexTransitive(a: bytes, b: bytes, c: bytes)
    requires ShortLex(a, b) && ShortLex(b, c)
    ensures ShortLex(a, c)
  {
    if |a| == |b| == |c| {
      LexTransitive(a, b, c);
    }
  }

  function KeyOf(e: Entry): bytes { Encode(e.key) }

  predicate KeyLeq(a: Entry, b: Entry) { ShortLex(KeyOf(a), KeyOf(b)) }

  predicate Sorted(s: seq<Entry>)
  {
    forall i, j | 0 <= i < j < |s| :: KeyLeq(s[i], s[j])
  }

  /** The entries whose key is encoded as `kb`, in order. */
  function WithKey(kb: bytes, s: seq<Entry>): seq<Entry>
  {
    if s == [] then [] else WithKey(kb, s[..|s| - 1]) + IfKey(kb, s[|s| - 1])
  }

  function IfKey(kb: bytes, e: Entry): seq<Entry> { if KeyOf(e) == kb then [e] else [] }

  /** Two entry lists hold the same entries, in the same order for each key. */
  ghost predicate SamePerKey(a: seq<Entry>, b: seq<Entry>)
  {
    forall kb :: WithKey(kb, a) == WithKey(kb, b)
  }

  // ---------------------------------------------------------------- the sort

  /** `x` put into the sorted `s`, after every entry that does not come after it. */
  function Insert(s: seq<Entry>, x: Entry): seq<Entry>
  {
    if s == [] || KeyLeq(s[|s| - 1], x) then s + [x]
    else Insert(s[..|s| - 1], x) + [s[|s| - 1]]
  }

  /** Specification of the stable sort. */
  function Sort(s: seq<Entry>): seq<Entry>
  {
    if s == [] then [] else Insert(Sort(s[..|s| - 1]), s[|s| - 1])
  }

  lemma {:induction false} InsertMembers(s: seq<Entry>, x: Entry)
    ensures multiset(Insert(s, x)) == multiset(s) + multiset{x}
  {
    if s == [] || KeyLeq(s[|s| - 1], x) {
    } else {
      InsertMembers(s[..|s| - 1], x);
      assert s == s[..|s| - 1] + [s[|s| - 1]];
    }
  }

  lemma {:induction false} InsertSorted(s: seq<Entry>, x: Entry)
    requires Sorted(s)
    ensures Sorted(Insert(s, x))
  {
    if s == [] {
    } else if KeyLeq(s[|s| - 1], x) {
      forall i | 0 <= i < |s| ensures KeyLeq(s[i], x) {
        if i < |s| - 1 { ShortLexTransitive(KeyOf(s[i]), KeyOf(s[|s| - 1]), KeyOf(x)); }
      }
    } else {
      var init, last := s[..|s| - 1], s[|s| - 1];
      InsertSorted(init, x);
      InsertMembers(init, x);
      ShortLexTotal(KeyOf(last), KeyOf(x));
      var r := Insert(init, x);
      forall i | 0 <= i < |r| ensures KeyLeq(r[i], last) {
        assert r[i] in multiset(r);
        assert r[i] in init || r[i] == x;
      }
    }
  }

  /** An entry is placed after all entries with its key, and moves past none of them. */
  lemma WithKeySnoc(kb: bytes, s: seq<Entry>, x: Entry)
    ensures WithKey(kb, s + [x]) == WithKey(kb, s) + IfKey(kb, x)
  {
    assert (s + [x])[..|s|] == s;
  }

  /** Entries with different keys do not both belong to one key. */
  lemma PassesBy(w: seq<Entry>, kb: bytes, x: Entry, y: Entry)
    requires KeyOf(x) != KeyOf(y)
    ensures w + IfKey(kb, x) + IfKey(kb, y) == w + IfKey(kb, y) + IfKey(kb, x)
  {
    assert IfKey(kb, x) == [] || IfKey(kb, y) == [];
  }

  lemma NotBefore(x: Entry, y: Entry)
    requires !KeyLeq(x, y)
    ensures KeyOf(x) != KeyOf(y)
  {
    ShortLexTotal(KeyOf(x), KeyOf(y));
  }

  lemma {:induction false} InsertStable(kb: bytes, s: seq<Entry>, x: Entry)
    requires Sorted(s)
    ensures WithKey(kb, Insert(s, x)) == WithKey(kb, s) + IfKey(kb, x)
  {
    if s == [] || KeyLeq(s[|s| - 1], x) {
      WithKeySnoc(kb, s, x);
    } else {
      var init, last := s[..|s| - 1], s[|s| - 1];
      InsertStable(kb, init, x);
      NotBefore(last, x);
      WithKeySnoc(kb, Insert(init, x), last);
      PassesBy(WithKey(kb, init), kb, x, last);
    }
  }

  lemma {:induction false} SortSorted(s: seq<Entry>)
    ensures Sorted(Sort(s))
  {
    if s == [] {
    } else {
      SortSorted(s[..|s| - 1]);
      InsertSorted(Sort(s[..|s| - 1]), s[|s| - 1]);
    }
  }

  lemma {:induction false} SortKeeps(s: seq<Entry>)
    ensures multiset(Sort(s)) == multiset(s)
  {
    if s == [] {
    } else {
      var init, last := s[..|s| - 1], s[|s| - 1];
      SortKeeps(init);
      InsertMembers(Sort(init), last);
      MultisetSnoc(init, last, s);
    }
  }

  lemma MultisetSnoc(init: seq<Entry>, last: Entry, s: seq<Entry>)
    requires s == init + [last]
    ensures multiset(s) == multiset(init) + multiset{last}
  {
  }

  lemma SortMembers(s: seq<Entry>)
    ensures multiset(Sort(s)) == multiset(s)
    ensures |Sort(s)| == |s|
    ensures forall e :: e in Sort(s) <==> e in s
  {
    SortKeeps(s);
    assert |multiset(Sort(s))| == |multiset(s)|;
    forall e ensures e in Sort(s) <==> e in s {
      assert e in Sort(s) <==> e in multiset(Sort(s));
      assert e in s <==> e in multiset(s);
    }
  }

  lemma {:induction false} SortStable(kb: bytes, s: seq<Entry>)
    ensures WithKey(kb, Sort(s)) == WithKey(kb, s)
  {
    if s == [] {
    } else {
      SortStable(kb, s[..|s| - 1]);
      SortSorted(s[..|s| - 1]);
      InsertStable(kb, Sort(s[..|s| - 1]), s[|s| - 1]);
    }
  }

  // ---------------------------------------------------------------- uniqueness

  lemma {:induction false} WithKeyMember(kb: bytes, s: seq<Entry>, e: Entry)
    ensures e in WithKey(kb, s) <==> e in s && KeyOf(e) == kb
  {
    if s == [] {
    } else {
      WithKeyMember(kb, s[..|s| - 1], e);
      assert s == s[..|s| - 1] + [s[|s| - 1]];
    }
  }

  lemma WithKeyInit(kb: bytes, s: seq<Entry>)
    requires s != []
    ensures WithKey(kb, s[..|s| - 1]) ==
            if KeyOf(s[|s| - 1]) == kb then WithKey(kb, s)[..|WithKey(kb, s)| - 1] else WithKey(kb, s)
  {
  }

  lemma SameMembers(a: seq<Entry>, b: seq<Entry>)
    requires SamePerKey(a, b)
    ensures forall e :: e in a <==> e in b
    ensures a == [] <==> b == []
  {
    forall e ensures e in a <==> e in b {
      WithKeyMember(KeyOf(e), a, e);
      WithKeyMember(KeyOf(e), b, e);
    }
    assert a != [] ==> a[0] in a;
    assert b != [] ==> b[0] in b;
  }

  /** Sorted lists that agree on every key have the same last entry. */
  lemma SameLast(a: seq<Entry>, b: seq<Entry>)
    requires Sorted(a) && Sorted(b) && SamePerKey(a, b) && a != [] && b != []
    ensures a[|a| - 1] == b[|b| - 1]
  {
    var x, y := a[|a| - 1], b[|b| - 1];
    WithKeyMember(KeyOf(x), a, x);
    WithKeyMember(KeyOf(x), b, x);
    WithKeyMember(KeyOf(y), b, y);
    WithKeyMember(KeyOf(y), a, y);
    assert WithKey(KeyOf(x), a) == WithKey(KeyOf(x), b) && WithKey(KeyOf(y), a) == WithKey(KeyOf(y), b);
    assert x in b && y in a;
    LexTotal(KeyOf(x), KeyOf(x));
    LexTotal(KeyOf(y), KeyOf(y));
    assert KeyLeq(x, y) && KeyLeq(y, x);
    ShortLexTotal(KeyOf(x), KeyOf(y));
    var wa, wb := WithKey(KeyOf(x), a), WithKey(KeyOf(x), b);
    assert wa[|wa| - 1] == x && wb[|wb| - 1] == y;
  }

  /** There is at most one sorted list with given per-key contents. */
  lemma {:induction false} SortedUnique(a: seq<Entry>, b: seq<Entry>)
    requires Sorted(a) && Sorted(b) && SamePerKey(a, b)
    ensures a == b
  {
    SameMembers(a, b);
    if a == [] {
    } else {
      SameLast(a, b);
      var x, a', b' := a[|a| - 1], a[..|a| - 1], b[..|b| - 1];
      forall kb ensures WithKey(kb, a') == WithKey(kb, b') {
        assert WithKey(kb, a) == WithKey(kb, b);
        WithKeyInit(kb, a);
        WithKeyInit(kb, b);
      }
      SortedUnique(a', b');
      assert a == a' + [x] && b == b' + [x];
    }
  }

  /** The result of sorting depends on the input only through its per-key contents. */
  lemma SortAgrees(a: seq<Entry>, b: seq<Entry>)
    requires SamePerKey(a, b)
    ensures Sort(a) == Sort(b)
  {
    SortSorted(a);
    SortSorted(b);
    forall kb ensures WithKey(kb, Sort(a)) == WithKey(kb, Sort(b)) {
      SortStable(kb, a);
      SortStable(kb, b);
      assert WithKey(kb, a) == WithKey(kb, b);
    }
    SortedUnique(Sort(a), Sort(b));
  }

  /** Sorting a sorted list changes nothing; in particular sorting twice is sorting once. */
  lemma SortOfSorted(s: seq<Entry>)
    requires Sorted(s)
    ensures Sort(s) == s
  {
    SortSorted(s);
    forall kb ensures WithKey(kb, Sort(s)) == WithKey(kb, s) { SortStable(kb, s); }
    SortedUnique(Sort(s), s);
  }

  // ---------------------------------------------------------------- distinct keys

  predicate DistinctKeys(s: seq<Entry>)
  {
    forall i, j | 0 <= i < j < |s| :: s[i].key != s[j].key
  }

  lemma {:induction false} WithKeyDistinct(kb: bytes, s: seq<Entry>)
    requires DistinctKeys(s) && forall e | e in s :: WellFormed(e.key)
    ensures |WithKey(kb, s)| <= 1
  {
    if s == [] {
    } else {
      var init, last := s[..|s| - 1], s[|s| - 1];
      WithKeyDistinct(kb, init);
      if KeyOf(last) == kb && WithKey(kb, init) != [] {
        var e := WithKey(kb, init)[0];
        WithKeyMember(kb, init, e);
        EncodeInjective(e.key, last.key);
      }
    }
  }

  lemma PermutationPerKey(kb: bytes, a: seq<Entry>, b: seq<Entry>)
    requires forall e :: e in a <==> e in b
    requires DistinctKeys(a) && DistinctKeys(b) && forall e | e in a :: WellFormed(e.key)
    ensures WithKey(kb, a) == WithKey(kb, b)
  {
    assert forall e | e in b :: WellFormed(e.key);
    WithKeyDistinct(kb, a);
    WithKeyDistinct(kb, b);
    WithKeySubset(kb, a, b);
    WithKeySubset(kb, b, a);
    AtMostOne(WithKey(kb, a), WithKey(kb, b));
  }

  lemma WithKeySubset(kb: bytes, a: seq<Entry>, b: seq<Entry>)
    requires forall e | e in a :: e in b
    ensures WithKey(kb, a) != [] ==> WithKey(kb, a)[0] in WithKey(kb, b)
  {
    if WithKey(kb, a) != [] {
      WithKeyMember(kb, a, WithKey(kb, a)[0]);
      WithKeyMember(kb, b, WithKey(kb, a)[0]);
    }
  }

  /** A map with distinct keys has one canonical order: every permutation sorts to the same list. */
  lemma SortPermutation(a: seq<Entry>, b: seq<Entry>)
    requires multiset(a) == multiset(b) && DistinctKeys(a) && DistinctKeys(b)
    requires forall e | e in a :: WellFormed(e.key)
    ensures SamePerKey(a, b) && Sort(a) == Sort(b)
  {
    forall e ensures e in a <==> e in b {
      assert (e in a <==> e in multiset(a)) && (e in b <==> e in multiset(b));
    }
    forall kb ensures WithKey(kb, a) == WithKey(kb, b) { PermutationPerKey(kb, a, b); }
    SortAgrees(a, b);
  }

  // ---------------------------------------------------------------- the in-place sort

  lemma SortNext(s: seq<Entry>, i: nat)
    requires i < |s|
    ensures Sort(s[..i + 1]) == Insert(Sort(s[..i]), s[i])
  {
    Snoc(s, i);
  }

  /** Sorts the slice in place; stands for the standard library's stable sort under this comparator. */
  method SortCborMap(entries: array<Entry>)
    modifies entries
    ensures entries[..] == Sort(old(entries[..]))
  {
    ghost var was := entries[..];
    var i := 0;
    while i < entries.Length
      invariant 0 <= i <= entries.Length
      invariant entries[..i] == Sort(was[..i]) && entries[i..] == was[i..]
    {
      SortNext(was, i);
      assert entries[i] == entries[i..][0] == was[i];
      ghost var rest := entries[i..];
      InsertInPlace(entries, i);
      assert entries[i + 1..] == rest[1..] == was[i + 1..];
      i := i + 1;
    }
    assert was[..i] == was && entries[..i] == entries[..];
  }

  /** Moves entry `i` down to its place in the sorted part before it. */
  method InsertInPlace(entries: array<Entry>, i: nat)
    requires i < entries.Length
    modifies entries
    ensures entries[..i + 1] == Insert(old(entries[..i]), old(entries[i]))
    ensures entries[i + 1..] == old(entries[i + 1..])
  {
    ghost var s, x := entries[..i], entries[i];
    if i > 0 && !KeyLeq(entries[i - 1], entries[i]) {
      ghost var rest := entries[i + 1..];
      entries[i - 1], entries[i] := entries[i], entries[i - 1];
      assert entries[..i - 1] == s[..i - 1] && entries[i..] == [s[i - 1]] + rest;
      InsertInPlace(entries, i - 1);
      assert entries[..i + 1] == entries[..i] + entries[i..][..1];
      assert entries[i + 1..] == entries[i..][1..];
    } else {
      assert entries[..i + 1] == s + [x];
    }
  }

  /** The same for an owned vector. */
  method SortedVec(entries: seq<Entry>) returns (r: seq<Entry>)
    ensures r == Sort(entries)
  {
    var a := new Entry[|entries|](i requires 0 <= i < |entries| => entries[i]);
    assert a[..] == entries;
    SortCborMap(a);
    r := a[..];
  }

  // ---------------------------------------------------------------- agreement with RFC 8949

  /** Everything but arrays and maps. */
  predicate Scalar(v: Value) { !v.Array? && !v.Map? }

  /** The major type, section 3.1 of RFC 8949. */
  function Major(v: Value): nat
  {
    match v
    case Int(i) => if i >= 0 then 0 else 1
    case Bytes(_) => 2
    case Text(_) => 3
    case Array(_) => 4
    case Map(_) => 5
    case Bool(_) => 7
    case Null => 7
  }

  /** The length-first order of the code and the bytewise order of section 4.2.1 of RFC 8949 place `a` and `b` alike. */
  predicate PlacedAlike(a: Value, b: Value)
  {
    && (ShortLex(Encode(a), Encode(b)) <==> LexLeq(Encode(a), Encode(b)))
    && (ShortLex(Encode(b), Encode(a)) <==> LexLeq(Encode(b), Encode(a)))
  }

  /** The argument of a head decides first, in both orders. */
  lemma HeadMonotone(major: nat, n: nat, m: nat)
    requires major < 8 && n < m <= MAX_ARG
    ensures LexBefore(WriteHead(major, n), WriteHead(major, m))
    ensures |WriteHead(major, n)| <= |WriteHead(major, m)|
  {
    Pow256Values();
    if 24 <= n {
      var w := if n < 0x100 then 1 else if n < 0x1_0000 then 2 else if n < 0x1_0000_0000 then 4 else 8;
      if m < Pow256(w) {
        BigEndianMonotone(n, m, w);
        LexCommonPrefix(WriteHead(major, n)[..1], BigEndian(n, w), BigEndian(m, w));
      }
    }
  }

  /** For non-negative integer keys the order is the numeric order. */
  lemma NumericOrder(n: nat, m: nat)
    requires n <= MAX_ARG && m <= MAX_ARG
    ensures ShortLex(Encode(Int(n)), Encode(Int(m))) <==> n <= m
  {
    if n < m {
      HeadOrder(0, n, m, [], []);
    } else if m < n {
      HeadOrder(0, m, n, [], []);
    } else {
      LexTotal(Encode(Int(n)), Encode(Int(m)));
    }
  }

  lemma HeadOrder(major: nat, n: nat, m: nat, x: bytes, y: bytes)
    requires major < 8 && n < m <= MAX_ARG && |x| <= |y|
    ensures var a, b := WriteHead(major, n) + x, WriteHead(major, m) + y;
            LexLeq(a, b) && !LexLeq(b, a) && ShortLex(a, b) && !ShortLex(b, a)
    ensures x == [] && y == [] ==>
              LexLeq(WriteHead(major, n), WriteHead(major, m)) && ShortLex(WriteHead(major, n), WriteHead(major, m))
              && !LexLeq(WriteHead(major, m), WriteHead(major, n))
              && !ShortLex(WriteHead(major, m), WriteHead(major, n))
  {
    HeadMonotone(major, n, m);
    LexBeforeDecides(WriteHead(major, n), WriteHead(major, m), x, y);
    if x == [] && y == [] {
      assert WriteHead(major, n) + x == WriteHead(major, n) && WriteHead(major, m) + y == WriteHead(major, m);
    }
  }

  /** On scalars of one major type the two orders agree. */
  lemma AgreesWithBytewiseOrder(a: Value, b: Value)
    requires WellFormed(a) && WellFormed(b) && Scalar(a) && Scalar(b) && Major(a) == Major(b)
    ensures PlacedAlike(a, b)
  {
    match a
    case Int(i) =>
      var n, m := if i >= 0 then i else -1 - i, if i >= 0 then b.i else -1 - b.i;
      if n < m { HeadOrder(Major(a), n, m, [], []); }
      if m < n { HeadOrder(Major(a), m, n, [], []); }
    case Bytes(s) =>
      if |s| < |b.b| { HeadOrder(2, |s|, |b.b|, s, b.b); }
      if |b.b| < |s| { HeadOrder(2, |b.b|, |s|, b.b, s); }
    case Text(s) =>
      if |s| < |b.t| { HeadOrder(3, |s|, |b.t|, s, b.t); }
      if |b.t| < |s| { HeadOrder(3, |b.t|, |s|, b.t, s); }
    case Bool(_) =>
    case Null =>
  }

  lemma FirstOctet(v: Value)
    requires WellFormed(v)
    ensures Encode(v)[0] / 32 == Major(v)
  {
  }

  /** On items of different major types they agree exactly when the smaller major type is not the longer item. */
  lemma AcrossMajors(a: Value, b: Value)
    requires WellFormed(a) && WellFormed(b) && Major(a) < Major(b)
    ensures LexLeq(Encode(a), Encode(b)) && !LexLeq(Encode(b), Encode(a))
    ensures PlacedAlike(a, b) <==> |Encode(a)| <= |Encode(b)|
  {
    FirstOctet(a);
    FirstOctet(b);
  }

  predicate BytewiseSorted(s: seq<Entry>)
  {
    forall i, j | 0 <= i < j < |s| :: LexLeq(KeyOf(s[i]), KeyOf(s[j]))
  }

  /** No key is longer than one that does not come before it bytewise. */
  predicate LengthsFollowBytes(s: seq<Entry>)
  {
    forall e, f | e in s && f in s :: LexLeq(KeyOf(e), KeyOf(f)) ==> |KeyOf(e)| <= |KeyOf(f)|
  }

  /** A key that comes first bytewise but is longer is sorted behind, where it does not belong bytewise. */
  lemma LongerGoesBehind(s: seq<Entry>, e: Entry, f: Entry)
    requires Sorted(s) && e in s && f in s
    requires LexLeq(KeyOf(e), KeyOf(f)) && |KeyOf(e)| > |KeyOf(f)|
    ensures !BytewiseSorted(s)
  {
    var i, j :| 0 <= i < |s| && 0 <= j < |s| && s[i] == f && s[j] == e;
    LexTotal(KeyOf(e), KeyOf(f));
    assert !KeyLeq(e, f) && i != j;
    assert i < j && !LexLeq(KeyOf(s[i]), KeyOf(s[j]));
  }

  /** What the code's order puts first comes first bytewise, if lengths follow bytes. */
  lemma PairBytewise(e: Entry, f: Entry)
    requires KeyLeq(e, f) && (LexLeq(KeyOf(f), KeyOf(e)) ==> |KeyOf(f)| <= |KeyOf(e)|)
    ensures LexLeq(KeyOf(e), KeyOf(f))
  {
    LexTotal(KeyOf(e), KeyOf(f));
  }

  /**
   Any map is left sorted as section 4.2.1 of RFC 8949 asks for exactly when no key of it is longer
   than one that comes after it bytewise.
   */
  lemma SortedBytewise(s: seq<Entry>)
    ensures BytewiseSorted(Sort(s)) <==> LengthsFollowBytes(s)
  {
    SortSorted(s);
    SortMembers(s);
    var t := Sort(s);
    if LengthsFollowBytes(s) {
      forall i, j | 0 <= i < j < |t| ensures LexLeq(KeyOf(t[i]), KeyOf(t[j])) {
        assert t[i] in t && t[j] in t && KeyLeq(t[i], t[j]);
        PairBytewise(t[i], t[j]);
      }
    } else {
      var e, f :| e in s && f in s && LexLeq(KeyOf(e), KeyOf(f)) && |KeyOf(e)| > |KeyOf(f)|;
      LongerGoesBehind(t, e, f);
    }
  }

  /** No key of a smaller major type is longer than one of a greater. */
  predicate LengthsFollowMajors(s: seq<Entry>)
  {
    forall e, f | e in s && f in s && Major(e.key) < Major(f.key) :: |KeyOf(e)| <= |KeyOf(f)|
  }

  lemma ScalarPair(e: Entry, f: Entry)
    requires WellFormed(e.key) && WellFormed(f.key) && Scalar(e.key) && Scalar(f.key)
    requires Major(e.key) < Major(f.key) ==> |KeyOf(e)| <= |KeyOf(f)|
    ensures LexLeq(KeyOf(e), KeyOf(f)) ==> |KeyOf(e)| <= |KeyOf(f)|
  {
    if Major(e.key) == Major(f.key) {
      AgreesWithBytewiseOrder(e.key, f.key);
    } else if Major(f.key) < Major(e.key) {
      AcrossMajors(f.key, e.key);
    }
  }

  /** For scalar keys it is enough to look at major types and lengths. */
  lemma ScalarsSortedBytewise(s: seq<Entry>)
    requires forall e | e in s :: WellFormed(e.key) && Scalar(e.key)
    ensures BytewiseSorted(Sort(s)) <==> LengthsFollowMajors(s)
  {
    SortedBytewise(s);
    if LengthsFollowMajors(s) {
      forall e, f | e in s && f in s ensures LexLeq(KeyOf(e), KeyOf(f)) ==> |KeyOf(e)| <= |KeyOf(f)| {
        ScalarPair(e, f);
      }
    }
    forall e, f | e in s && f in s && Major(e.key) < Major(f.key) ensures LexLeq(KeyOf(e), KeyOf(f)) {
      AcrossMajors(e.key, f.key);
    }
  }

  lemma SortSwaps(a: Entry, b: Entry)
    requires !KeyLeq(a, b)
    ensures Sort([a, b]) == [b, a]
  {
    assert [a][..0] == [] && [a, b][..1] == [a];
    assert Sort([]) == [] && Insert([], a) == [a] && Insert([], b) == [b];
  }

  lemma MixedKeys()
    ensures Encode(Int(24)) == [0x18, 24] && Encode(Text([])) == [0x60]
  {
    assert BigEndian(24, 1) == [24];
  }

  /** A map with the keys 24 and "" is sorted one way by the code and the other way bytewise. */
  lemma MixedKindsDisagree(x: Value, y: Value)
    ensures var s := [Entry(Int(24), x), Entry(Text([]), y)];
            Sort(s) == [s[1], s[0]] && !BytewiseSorted(Sort(s)) && BytewiseSorted(s)
  {
    MixedKeys();
    SwapsBytewise(Entry(Int(24), x), Entry(Text([]), y));
  }

  const AAA := Array([Text([0x61, 0x61, 0x61])])
  const ONES := Array([Int(1), Int(1)])

  lemma ArrayKeys()
    ensures Encode(AAA) == [0x81, 0x63, 0x61, 0x61, 0x61] && Encode(ONES) == [0x82, 0x01, 0x01]
  {
    var t, one := Text([0x61, 0x61, 0x61]), Int(1);
    assert Encode(t) == [0x63, 0x61, 0x61, 0x61] && Encode(one) == [0x01];
    assert [t][1..] == [] && [one, one][1..] == [one] && [one][1..] == [];
    assert EncodeItems([t]) == Encode(t) + EncodeItems([]);
    assert EncodeItems([one]) == Encode(one) + EncodeItems([]);
    assert EncodeItems([one, one]) == Encode(one) + EncodeItems([one]);
  }

  /** Major types alone do not decide beyond scalars: the array keys ["aaa"] and [1, 1] share one, and are swapped. */
  lemma ArrayKeysDisagree(x: Value, y: Value)
    ensures var s := [Entry(AAA, x), Entry(ONES, y)];
            && LengthsFollowMajors(s)
            && Sort(s) == [s[1], s[0]] && !BytewiseSorted(Sort(s)) && BytewiseSorted(s)
  {
    ArrayKeys();
    SwapsBytewise(Entry(AAA, x), Entry(ONES, y));
    assert Major(AAA) == Major(ONES);
  }

  lemma SwapsBytewise(a: Entry, b: Entry)
    requires LexLeq(KeyOf(a), KeyOf(b)) && |KeyOf(a)| > |KeyOf(b)|
    ensures Sort([a, b]) == [b, a] && !BytewiseSorted([b, a]) && BytewiseSorted([a, b])
  {
    SortSwaps(a, b);
    LongerGoesBehind([b, a], a, b);
  }
}
