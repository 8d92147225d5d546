/**
 Reading and rewriting entry lists up to the order between different keys: whatever looks at one
 key only, or rewrites entries under their own key, cannot tell a list from its sorted form.
 */
module KeyFolds {
  import opened Bytes
  import opened Folds
  import opened Cbor
  import opened CborOrder

  lemma WithKeyConcat(kb: bytes, a: seq<Entry>, b: seq<Entry>)
    ensures WithKey(kb, a + b) == WithKey(kb, a) + WithKey(kb, b)
  {
    var fold := (s: seq<Entry>) => WithKey(kb, s);
    var add, join := (y: seq<Entry>, x: Entry) => y + IfKey(kb, x), (y: seq<Entry>, z: seq<Entry>) => y + z;
    forall s, x ensures fold(s + [x]) == add(fold(s), x) { WithKeySnoc(kb, s, x); }
    forall s, x ensures add(join(fold(a), fold(s)), x) == join(fold(a), add(fold(s), x)) {
      Associative(fold(a), fold(s), IfKey(kb, x));
    }
    assert fold([]) == [] && fold(a) + [] == fold(a);
    FoldConcat(fold, add, join, a, b);
  }

  lemma SamePerKeyConcat(a: seq<Entry>, a': seq<Entry>, b: seq<Entry>, b': seq<Entry>)
    requires SamePerKey(a, a') && SamePerKey(b, b')
    ensures SamePerKey(a + b, a' + b')
  {
    forall kb ensures WithKey(kb, a + b) == WithKey(kb, a' + b') {
      WithKeyConcat(kb, a, b);
      WithKeyConcat(kb, a', b');
    }
  }

  lemma SortedSamePerKey(s: seq<Entry>)
    ensures SamePerKey(Sort(s), s)
  {
    forall kb ensures WithKey(kb, Sort(s)) == WithKey(kb, s) { SortStable(kb, s); }
  }

  // ---------------------------------------------------------------- readers of one key

  lemma {:induction false} FlatMapOneKey<B>(f: Entry -> seq<B>, kb: bytes, s: seq<Entry>)
    requires forall e: Entry :: KeyOf(e) != kb ==> f(e) == []
    ensures FlatMap(f, s) == FlatMap(f, WithKey(kb, s))
  {
    if s == [] {
    } else {
      var init, last := s[..|s| - 1], s[|s| - 1];
      assert KeyOf(last) != kb ==> WithKey(kb, s) == WithKey(kb, init);
      FlatMapOneKey(f, kb, init);
      FlatMapConcat(f, WithKey(kb, init), [last]);
      FlatMapOne(f, last);
    }
  }

  lemma {:induction false} LastSomeOneKey<B>(f: Entry -> Option<B>, kb: bytes, s: seq<Entry>)
    requires forall e: Entry :: KeyOf(e) != kb ==> f(e) == None
    ensures LastSome(f, s) == LastSome(f, WithKey(kb, s))
  {
    if s == [] {
    } else {
      var init, last := s[..|s| - 1], s[|s| - 1];
      assert KeyOf(last) != kb ==> WithKey(kb, s) == WithKey(kb, init);
      LastSomeOneKey(f, kb, init);
      LastSomeConcat(f, WithKey(kb, init), [last]);
      LastSomeOne(f, last);
    }
  }

  lemma {:induction false} FirstSomeOneKey<B>(f: Entry -> Option<B>, kb: bytes, s: seq<Entry>)
    requires forall e: Entry :: KeyOf(e) != kb ==> f(e) == None
    ensures FirstSome(f, s) == FirstSome(f, WithKey(kb, s))
  {
    if s == [] {
    } else {
      var init, last := s[..|s| - 1], s[|s| - 1];
      assert KeyOf(last) != kb ==> WithKey(kb, s) == WithKey(kb, init);
      FirstSomeOneKey(f, kb, init);
      FirstSomeConcat(f, WithKey(kb, init), [last]);
      assert FirstSome(f, [last]) == f(last) by { assert [last][..0] == []; }
    }
  }

  lemma FlatMapPerKey<B>(f: Entry -> seq<B>, kb: bytes, a: seq<Entry>, b: seq<Entry>)
    requires forall e: Entry :: KeyOf(e) != kb ==> f(e) == []
    requires SamePerKey(a, b)
    ensures FlatMap(f, a) == FlatMap(f, b)
  {
    FlatMapOneKey(f, kb, a);
    FlatMapOneKey(f, kb, b);
    assert WithKey(kb, a) == WithKey(kb, b);
  }

  lemma LastSomePerKey<B>(f: Entry -> Option<B>, kb: bytes, a: seq<Entry>, b: seq<Entry>)
    requires forall e: Entry :: KeyOf(e) != kb ==> f(e) == None
    requires SamePerKey(a, b)
    ensures LastSome(f, a) == LastSome(f, b)
  {
    LastSomeOneKey(f, kb, a);
    LastSomeOneKey(f, kb, b);
    assert WithKey(kb, a) == WithKey(kb, b);
  }

  lemma FirstSomePerKey<B>(f: Entry -> Option<B>, kb: bytes, a: seq<Entry>, b: seq<Entry>)
    requires forall e: Entry :: KeyOf(e) != kb ==> f(e) == None
    requires SamePerKey(a, b)
    ensures FirstSome(f, a) == FirstSome(f, b)
  {
    FirstSomeOneKey(f, kb, a);
    FirstSomeOneKey(f, kb, b);
    assert WithKey(kb, a) == WithKey(kb, b);
  }

  // ---------------------------------------------------------------- rewriters under the own key

  ghost predicate KeepsKeys(g: Entry -> seq<Entry>)
  {
    forall e: Entry, x | x in g(e) :: x.key == e.key
  }

  lemma {:induction false} AllPicked(kb: bytes, s: seq<Entry>)
    requires forall i | 0 <= i < |s| :: IfKey(kb, s[i]) == [s[i]]
    ensures WithKey(kb, s) == s
  {
    if s == [] {
    } else {
      var init, last := s[..|s| - 1], s[|s| - 1];
      AllPicked(kb, init);
      assert WithKey(kb, s) == init + [last];
    }
  }

  lemma WithKeyAll(kb: bytes, s: seq<Entry>)
    requires forall i | 0 <= i < |s| :: KeyOf(s[i]) == kb
    ensures WithKey(kb, s) == s
  {
    AllPicked(kb, s);
  }

  lemma {:induction false} WithKeyNone(kb: bytes, s: seq<Entry>)
    requires forall e | e in s :: KeyOf(e) != kb
    ensures WithKey(kb, s) == []
  {
    if s == [] {
    } else {
      WithKeyNone(kb, s[..|s| - 1]);
    }
  }

  lemma {:induction false} WithKeyFlatMap(g: Entry -> seq<Entry>, kb: bytes, s: seq<Entry>)
    requires KeepsKeys(g)
    ensures WithKey(kb, FlatMap(g, s)) == FlatMap(g, WithKey(kb, s))
  {
    if s == [] {
    } else {
      var init, last := s[..|s| - 1], s[|s| - 1];
      WithKeyFlatMap(g, kb, init);
      WithKeyConcat(kb, FlatMap(g, init), g(last));
      if KeyOf(last) == kb {
        WithKeyAll(kb, g(last));
        FlatMapConcat(g, WithKey(kb, init), [last]);
        FlatMapOne(g, last);
      } else {
        WithKeyNone(kb, g(last));
        assert WithKey(kb, s) == WithKey(kb, init);
      }
    }
  }

  lemma RewritePerKey(g: Entry -> seq<Entry>, a: seq<Entry>, b: seq<Entry>)
    requires KeepsKeys(g) && SamePerKey(a, b)
    ensures SamePerKey(FlatMap(g, a), FlatMap(g, b))
  {
    forall kb ensures WithKey(kb, FlatMap(g, a)) == WithKey(kb, FlatMap(g, b)) {
      WithKeyFlatMap(g, kb, a);
      WithKeyFlatMap(g, kb, b);
      assert WithKey(kb, a) == WithKey(kb, b);
    }
  }

  /** Rewriting then adding fixed entries, sorted: only the per-key contents of the input count. */
  lemma SortRewritten(g: Entry -> seq<Entry>, a: seq<Entry>, b: seq<Entry>, post: seq<Entry>)
    requires KeepsKeys(g) && SamePerKey(a, b)
    ensures Sort(FlatMap(g, a) + post) == Sort(FlatMap(g, b) + post)
    ensures Sort(post + FlatMap(g, a)) == Sort(post + FlatMap(g, b))
  {
    RewritePerKey(g, a, b);
    SamePerKeyConcat(FlatMap(g, a), FlatMap(g, b), post, post);
    SamePerKeyConcat(post, post, FlatMap(g, a), FlatMap(g, b));
    SortAgrees(FlatMap(g, a) + post, FlatMap(g, b) + post);
    SortAgrees(post + FlatMap(g, a), post + FlatMap(g, b));
  }
}
