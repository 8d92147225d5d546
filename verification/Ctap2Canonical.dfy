/**
 Canonical form: requests with distinct keys that differ only in the order of the entries of
 their maps are rewritten to the same octets.
 */
module Ctap2Canonical {
  import opened Bytes
  import opened Folds
  import opened Cbor
  import opened CborOrder
  import opened KeyFolds
  import opened Ctap2
  import opened Ctap2Wire
  import opened Ctap2Idempotence

  /** The same entries under distinct keys, in another order. */
  ghost predicate Shuffled(a: seq<Entry>, b: seq<Entry>)
  {
    DistinctKeys(a) && DistinctKeys(b) && multiset(a) == multiset(b)
  }

  ghost predicate MapShuffled(v: Value, w: Value)
  {
    v == w || (v.Map? && w.Map? && Shuffled(v.entries, w.entries))
  }

  /** Lists whose descriptors are shuffled in place. */
  ghost predicate ListShuffled(v: Value, w: Value)
  {
    || v == w
    || (&& v.Array? && w.Array? && |v.items| == |w.items|
        && forall i | 0 <= i < |v.items| :: MapShuffled(v.items[i], w.items[i]))
  }

  ghost predicate GaEntryShuffled(e: Entry, f: Entry)
  {
    && e.key == f.key
    && (|| e.value == f.value
        || (e.key == Int(3) && ListShuffled(e.value, f.value))
        || (e.key == Int(5) && MapShuffled(e.value, f.value)))
  }

  ghost predicate McEntryShuffled(e: Entry, f: Entry)
  {
    && e.key == f.key
    && (|| e.value == f.value
        || ((e.key == Int(2) || e.key == Int(3) || e.key == Int(7)) && MapShuffled(e.value, f.value))
        || (e.key == Int(5) && ListShuffled(e.value, f.value)))
  }

  ghost predicate EntriesShuffled(same: (Entry, Entry) -> bool, a: seq<Entry>, b: seq<Entry>)
  {
    |a| == |b| && forall i | 0 <= i < |a| :: same(a[i], b[i])
  }

  /** Inner maps shuffled first (`middle`), then the top-level map. */
  ghost predicate GaRequestShuffled(a: seq<Entry>, b: seq<Entry>)
  {
    exists middle :: EntriesShuffled((e, f) => GaEntryShuffled(e, f), a, middle) && Shuffled(middle, b)
  }

  ghost predicate McRequestShuffled(a: seq<Entry>, b: seq<Entry>)
  {
    exists middle :: EntriesShuffled((e, f) => McEntryShuffled(e, f), a, middle) && Shuffled(middle, b)
  }

  // ---------------------------------------------------------------- inner maps

  lemma ShuffledSamePerKey(v: Value, w: Value)
    requires MapShuffled(v, w) && WellFormed(v)
    ensures v.Map? <==> w.Map?
    ensures SamePerKey(EntriesOf(v), EntriesOf(w))
  {
    if v != w {
      forall e | e in v.entries ensures WellFormed(e.key) {}
      SortPermutation(v.entries, w.entries);
    }
  }

  lemma SanitizeDescriptorShuffled(v: Value, w: Value)
    requires MapShuffled(v, w) && WellFormed(v)
    ensures SanitizedItem(v) == SanitizedItem(w)
  {
    ShuffledSamePerKey(v, w);
    if v.Map? {
      LastSomePerKey(IdValueOf, Encode(Text(ID)), v.entries, w.entries);
      LastSomePerKey(TypeValueOf, Encode(Text(TYPE)), v.entries, w.entries);
    }
  }

  lemma SanitizeListShuffled(key: Value, v: Value, w: Value)
    requires ListShuffled(v, w) && WellFormed(v)
    ensures SanitizeList(key, v) == SanitizeList(key, w)
  {
    if v != w {
      forall i | 0 <= i < |v.items| ensures SanitizedItem(v.items[i]) == SanitizedItem(w.items[i]) {
        assert v.items[i] in v.items;
        SanitizeDescriptorShuffled(v.items[i], w.items[i]);
      }
      FlatMapPointwise(SanitizedItem, v.items, w.items);
    }
  }

  lemma CleanRpPerKey(a: seq<Entry>, b: seq<Entry>)
    requires SamePerKey(a, b)
    ensures CleanRp(a) == CleanRp(b)
  {
    LastSomePerKey(IdValueOf, Encode(Text(ID)), a, b);
    LastSomePerKey(NameValueOf, Encode(Text(NAME)), a, b);
    SortRewritten(RpOther, a, b, [Entry(Text(ID), Text(RpId(a))), Entry(Text(NAME), Text(RpName(a)))]);
  }

  lemma CleanUserPerKey(a: seq<Entry>, b: seq<Entry>)
    requires SamePerKey(a, b)
    ensures CleanUser(a) == CleanUser(b)
  {
    LastSomePerKey(IdValueOf, Encode(Text(ID)), a, b);
    LastSomePerKey(NameValueOf, Encode(Text(NAME)), a, b);
    LastSomePerKey(DisplayNameValueOf, Encode(Text(DISPLAY_NAME)), a, b);
    SortRewritten(UserOther, a, b,
                  [Entry(Text(ID), UserId(a)), Entry(Text(NAME), Text(UserName(a))),
                   Entry(Text(DISPLAY_NAME), Text(UserDisplayName(a)))]);
  }

  // ---------------------------------------------------------------- entries

  lemma GaEntryAlike(e: Entry, f: Entry)
    requires GaEntryShuffled(e, f) && EntryWellFormed(e)
    ensures GaRewrite(e) == GaRewrite(f) && UvIn(e) == UvIn(f)
  {
    if e.value != f.value {
      if e.key == Int(3) {
        SanitizeListShuffled(e.key, e.value, f.value);
      } else {
        ShuffledSamePerKey(e.value, f.value);
        LastSomePerKey(UvFlag, Encode(Text(UV)), EntriesOf(e.value), EntriesOf(f.value));
      }
    }
  }

  lemma McEntryAlike(e: Entry, f: Entry)
    requires McEntryShuffled(e, f) && EntryWellFormed(e)
    ensures McRewrite(e) == McRewrite(f)
  {
    if e.value == f.value {
      assert e == f;
    } else if e.key == Int(5) {
      SanitizeListShuffled(e.key, e.value, f.value);
    } else {
      RecordAlike(e.value, f.value);
    }
  }

  lemma RecordAlike(v: Value, w: Value)
    requires MapShuffled(v, w) && WellFormed(v)
    ensures CleanRp(EntriesOf(v)) == CleanRp(EntriesOf(w)) && CleanUser(EntriesOf(v)) == CleanUser(EntriesOf(w))
  {
    ShuffledSamePerKey(v, w);
    CleanRpPerKey(EntriesOf(v), EntriesOf(w));
    CleanUserPerKey(EntriesOf(v), EntriesOf(w));
  }

  // ---------------------------------------------------------------- whole requests

  lemma TopLevelSamePerKey(a: seq<Entry>, middle: seq<Entry>, b: seq<Entry>)
    requires |a| == |middle| && forall i | 0 <= i < |a| :: a[i].key == middle[i].key
    requires Shuffled(middle, b) && forall e | e in a :: EntryWellFormed(e)
    ensures SamePerKey(middle, b)
  {
    forall e | e in middle ensures WellFormed(e.key) {
      var i :| 0 <= i < |middle| && middle[i] == e;
      assert a[i] in a;
    }
    SortPermutation(middle, b);
  }

  lemma GaEntriesShuffled(a: seq<Entry>, b: seq<Entry>)
    requires GaRequestShuffled(a, b) && forall e | e in a :: EntryWellFormed(e)
    ensures GaEntries(a) == GaEntries(b)
  {
    var middle :| EntriesShuffled((e, f) => GaEntryShuffled(e, f), a, middle) && Shuffled(middle, b);
    forall i | 0 <= i < |a| ensures GaRewrite(a[i]) == GaRewrite(middle[i]) && UvIn(a[i]) == UvIn(middle[i]) {
      assert a[i] in a;
      GaEntryAlike(a[i], middle[i]);
    }
    FlatMapPointwise(GaRewrite, a, middle);
    LastSomePointwise(UvIn, a, middle);
    TopLevelSamePerKey(a, middle, b);
    LastSomePerKey(UvIn, Encode(Int(5)), middle, b);
    GaKeepsKeys();
    SortRewritten(GaRewrite, middle, b, [GaOptions(LastSome(UvIn, a).GetOr(true))]);
  }

  lemma McEntriesShuffled(a: seq<Entry>, b: seq<Entry>)
    requires McRequestShuffled(a, b) && forall e | e in a :: EntryWellFormed(e)
    ensures McEntries(a) == McEntries(b)
  {
    var middle :| EntriesShuffled((e, f) => McEntryShuffled(e, f), a, middle) && Shuffled(middle, b);
    forall i | 0 <= i < |a| ensures McRewrite(a[i]) == McRewrite(middle[i]) {
      assert a[i] in a;
      McEntryAlike(a[i], middle[i]);
    }
    FlatMapPointwise(McRewrite, a, middle);
    TopLevelSamePerKey(a, middle, b);
    HasKeyShuffled(Int(7), a, middle, b);
    McKeepsKeys();
    SortRewritten(McRewrite, middle, b, McInjected(a));
  }

  lemma HasKeyShuffled(key: Value, a: seq<Entry>, middle: seq<Entry>, b: seq<Entry>)
    requires |a| == |middle| && forall i | 0 <= i < |a| :: a[i].key == middle[i].key
    requires multiset(middle) == multiset(b)
    ensures HasKey(key, a) <==> HasKey(key, b)
  {
    forall e ensures e in middle <==> e in b {
      assert (e in middle <==> e in multiset(middle)) && (e in b <==> e in multiset(b));
    }
    if HasKey(key, a) {
      var e :| e in a && e.key == key;
      var i :| 0 <= i < |a| && a[i] == e;
      assert middle[i] in middle && middle[i].key == key;
    }
    if HasKey(key, b) {
      var e :| e in b && e.key == key;
      assert e in middle;
      var i :| 0 <= i < |middle| && middle[i] == e;
      assert a[i] in a && a[i].key == key;
    }
  }

  lemma RequestWellFormed(raw: bytes)
    requires IsSlice(raw) && RequestMap(raw).Some?
    ensures forall e | e in RequestMap(raw).value :: EntryWellFormed(e)
  {
    RequestFits(raw);
    forall e | e in RequestMap(raw).value ensures EntryWellFormed(e) { EntryFitsWellFormed(e, |raw|); }
  }

  /** Key order in a GetAssertion request leaves no trace in what is sent to the phone. */
  lemma GetAssertionCanonical(raw: bytes, raw': bytes)
    requires IsSlice(raw) && RequestMap(raw).Some? && RequestMap(raw').Some? && raw[0] == raw'[0]
    requires GaRequestShuffled(RequestMap(raw).value, RequestMap(raw').value)
    ensures GaPayload(raw) == GaPayload(raw')
  {
    RequestWellFormed(raw);
    GaEntriesShuffled(RequestMap(raw).value, RequestMap(raw').value);
  }

  /** Key order in a MakeCredential request leaves no trace in what is sent to the phone. */
  lemma MakeCredentialCanonical(raw: bytes, raw': bytes)
    requires IsSlice(raw) && RequestMap(raw).Some? && RequestMap(raw').Some? && raw[0] == raw'[0]
    requires McRequestShuffled(RequestMap(raw).value, RequestMap(raw').value)
    ensures McPayload(raw) == McPayload(raw')
  {
    RequestWellFormed(raw);
    McEntriesShuffled(RequestMap(raw).value, RequestMap(raw').value);
  }

  // ---------------------------------------------------------------- the form a strict authenticator gets

  predicate AscendingKeys(s: seq<Entry>)
  {
    forall i, j | 0 <= i < j < |s| :: s[i].key.Int? && s[j].key.Int? && 0 <= s[i].key.i <= s[j].key.i
  }

  lemma SortedKeysAscend(s: seq<Entry>)
    requires Sorted(s) && forall e | e in s :: e.key.Int? && 0 <= e.key.i <= MAX_ARG
    ensures AscendingKeys(s)
  {
    forall i, j | 0 <= i < j < |s| ensures s[i].key.Int? && s[j].key.Int? && 0 <= s[i].key.i <= s[j].key.i {
      assert s[i] in s && s[j] in s && KeyLeq(s[i], s[j]);
      NumericOrder(s[i].key.i, s[j].key.i);
    }
  }

  /** A descriptor with nothing but "id" and "type", in this order. */
  predicate BareDescriptor(v: Value)
  {
    v.Map? && |v.entries| == 2 && v.entries[0].key == Text(ID) && v.entries[1].key == Text(TYPE)
  }

  predicate BareList(v: Value)
  {
    v.Array? && v.items != [] && forall d | d in v.items :: BareDescriptor(d)
  }

  lemma SanitizedListBare(key: Value, v: Value)
    ensures forall x | x in SanitizeList(key, v) :: x.key == key && BareList(x.value)
  {
    if v.Array? {
      forall d | d in FlatMap(SanitizedItem, v.items) ensures BareDescriptor(d) {
        var x := FlatMapMember(SanitizedItem, v.items, d);
        DescriptorForm(LastSome(IdValueOf, x.entries).value, LastSome(TypeValueOf, x.entries).GetOr(Text(PUBLIC_KEY)));
      }
    }
  }

  /** GetAssertion as forwarded: keys 1, 2, 3 and 5 in order, bare descriptors, presence requested, no extensions. */
  predicate GaConforms(e: Entry)
  {
    match e.key
    case Int(n) =>
      || n == 1 || n == 2
      || (n == 3 && BareList(e.value))
      || (n == 5 && (e == GaOptions(true) || e == GaOptions(false)))
    case _ => false
  }

  lemma GaRewriteConforms(e: Entry)
    ensures forall x | x in GaRewrite(e) :: GaConforms(x)
  {
    SanitizedListBare(e.key, e.value);
  }

  lemma GaRewriteKeys(e: Entry)
    ensures forall x | x in GaRewrite(e) :: x.key == Int(1) || x.key == Int(2) || x.key == Int(3)
  {
    SanitizedListBare(e.key, e.value);
  }

  lemma NoOptionsKept(entries: seq<Entry>)
    ensures WithKey(Encode(Int(5)), FlatMap(GaRewrite, entries)) == []
  {
    forall x | x in FlatMap(GaRewrite, entries) ensures KeyOf(x) != Encode(Int(5)) {
      var e := FlatMapMember(GaRewrite, entries, x);
      GaRewriteKeys(e);
      EncodeInjective(x.key, Int(5));
    }
    WithKeyNone(Encode(Int(5)), FlatMap(GaRewrite, entries));
  }

  /** The injected options are the only entry of key 5. */
  lemma OptionsOnce(entries: seq<Entry>)
    ensures WithKey(Encode(Int(5)), GaEntries(entries)) == [GaOptions(LastSome(UvIn, entries).GetOr(true))]
  {
    var kept, options := FlatMap(GaRewrite, entries), GaOptions(LastSome(UvIn, entries).GetOr(true));
    NoOptionsKept(entries);
    SortStable(Encode(Int(5)), kept + [options]);
    WithKeyConcat(Encode(Int(5)), kept, [options]);
    WithKeyAll(Encode(Int(5)), [options]);
  }

  lemma GaMember(entries: seq<Entry>, uv: bool, x: Entry)
    requires x in Sort(FlatMap(GaRewrite, entries) + [GaOptions(uv)])
    ensures GaConforms(x) && x.key.Int? && 0 <= x.key.i <= MAX_ARG
  {
    SortMembers(FlatMap(GaRewrite, entries) + [GaOptions(uv)]);
    if x in FlatMap(GaRewrite, entries) {
      var e := FlatMapMember(GaRewrite, entries, x);
      GaRewriteConforms(e);
    }
  }

  lemma GetAssertionConforms(entries: seq<Entry>)
    ensures AscendingKeys(GaEntries(entries)) && forall e | e in GaEntries(entries) :: GaConforms(e)
    ensures WithKey(Encode(Int(5)), GaEntries(entries)) == [GaOptions(LastSome(UvIn, entries).GetOr(true))]
  {
    var uv := LastSome(UvIn, entries).GetOr(true);
    forall e | e in GaEntries(entries) ensures GaConforms(e) && e.key.Int? && 0 <= e.key.i <= MAX_ARG {
      GaMember(entries, uv, e);
    }
    OptionsOnce(entries);
    SortSorted(FlatMap(GaRewrite, entries) + [GaOptions(uv)]);
    SortedKeysAscend(GaEntries(entries));
  }

  predicate HasText(f: Entry -> Option<Value>, v: Value)
  {
    v.Map? && NonEmptyText(LastSome(f, v.entries)).Some?
  }

  /**
   MakeCredential as forwarded: keys 1, 2, 3, 4, 5 and 7 in order; the relying party has an id and
   a name, the user an id, a name and a display name; ES256 alone if it was offered; bare
   descriptors; resident key and user verification requested; no extensions.
   */
  predicate McConforms(e: Entry)
  {
    match e.key
    case Int(n) =>
      || n == 1
      || (n == 2 && HasText(IdValueOf, e.value) && HasText(NameValueOf, e.value))
      || (n == 3 && e.value.Map? && LastSome(IdValueOf, e.value.entries).Some?
          && HasText(NameValueOf, e.value) && HasText(DisplayNameValueOf, e.value))
      || (n == 4 && (OffersEs256(e.value) ==> e.value == ES256_PARAMS))
      || (n == 5 && BareList(e.value))
      || e == MC_OPTIONS
    case _ => false
  }

  lemma RpConforms(rp: seq<Entry>)
    ensures McConforms(Entry(Int(2), Map(CleanRp(rp))))
  {
    RpRecordReads(RpId(rp), RpName(rp), rp);
  }

  lemma UserConforms(user: seq<Entry>)
    ensures McConforms(Entry(Int(3), Map(CleanUser(user))))
  {
    UserRecordReads(UserId(user), UserName(user), UserDisplayName(user), user);
  }

  lemma McRewriteConforms(e: Entry)
    ensures forall x | x in McRewrite(e) :: McConforms(x)
  {
    match e.key
    case Int(n) =>
      if n == 2 {
        RpConforms(EntriesOf(e.value));
      } else if n == 3 {
        UserConforms(EntriesOf(e.value));
      } else if n == 5 {
        SanitizedListBare(e.key, e.value);
      }
    case _ =>
  }

  /** Every forwarded entry comes from one of the request, or is the injected one. */
  lemma McSource(entries: seq<Entry>, x: Entry)
    requires x in McEntries(entries)
    ensures x == MC_OPTIONS || exists e :: e in entries && x in McRewrite(e)
  {
    SortMembers(FlatMap(McRewrite, entries) + McInjected(entries));
    if x in FlatMap(McRewrite, entries) {
      var e := FlatMapMember(McRewrite, entries, x);
    }
  }

  lemma McConformsAt(entries: seq<Entry>, x: Entry)
    requires x in McEntries(entries)
    ensures McConforms(x)
  {
    McSource(entries, x);
    if x != MC_OPTIONS {
      var e :| e in entries && x in McRewrite(e);
      McRewriteConforms(e);
    }
  }

  lemma MakeCredentialConforms(entries: seq<Entry>)
    ensures AscendingKeys(McEntries(entries)) && MC_OPTIONS in McEntries(entries)
    ensures forall e | e in McEntries(entries) :: McConforms(e)
  {
    McHasOptions(entries);
    forall e | e in McEntries(entries) ensures McConforms(e) && e.key.Int? && 0 <= e.key.i <= MAX_ARG {
      McConformsAt(entries, e);
    }
    SortSorted(FlatMap(McRewrite, entries) + McInjected(entries));
    SortedKeysAscend(McEntries(entries));
  }

  // ---------------------------------------------------------------- what is not supplied

  predicate Has(p: Entry -> bool, s: seq<Entry>) { exists e | e in s :: p(e) }

  lemma HasOne(p: Entry -> bool, x: Entry)
    ensures Has(p, [x]) <==> p(x)
  {
    assert x in [x];
  }

  /** A property that the rewrite neither gives nor takes away is forwarded. */
  lemma Survives(p: Entry -> bool, g: Entry -> seq<Entry>, entries: seq<Entry>, added: seq<Entry>)
    requires forall e | e in entries :: p(e) <==> Has(p, g(e))
    requires !Has(p, added)
    ensures Has(p, Sort(FlatMap(g, entries) + added)) <==> Has(p, entries)
  {
    SortMembers(FlatMap(g, entries) + added);
    if Has(p, Sort(FlatMap(g, entries) + added)) {
      var x :| x in FlatMap(g, entries) + added && p(x);
      assert x !in added;
      var e := FlatMapMember(g, entries, x);
    }
    if Has(p, entries) {
      var e :| e in entries && p(e);
      var x :| x in g(e) && p(x);
      RewrittenMember(g, entries, e, x);
      assert x in FlatMap(g, entries) + added;
    }
  }

  predicate OffersEntry(e: Entry) { e.key == Int(4) && OffersEs256(e.value) }

  lemma KeyKept(e: Entry, x: Entry)
    requires x in McRewrite(e)
    ensures x.key == e.key
  {
    SanitizedListBare(e.key, e.value);
  }

  lemma OffersRewritten(e: Entry)
    ensures OffersEntry(e) <==> Has(OffersEntry, McRewrite(e))
  {
    if e.key == Int(4) {
      Es256Fixed();
      HasOne(OffersEntry, if OffersEs256(e.value) then Entry(e.key, ES256_PARAMS) else e);
    } else {
      forall x | x in McRewrite(e) ensures x.key == e.key { KeyKept(e, x); }
    }
  }

  /** The request as forwarded offers ES256 exactly when the original did. */
  lemma OffersForwarded(entries: seq<Entry>)
    ensures Has(OffersEntry, McEntries(entries)) <==> Has(OffersEntry, entries)
  {
    forall x | x in McInjected(entries) ensures !OffersEntry(x) { }
    forall e | e in entries ensures OffersEntry(e) <==> Has(OffersEntry, McRewrite(e)) { OffersRewritten(e); }
    Survives(OffersEntry, McRewrite, entries, McInjected(entries));
  }

  function Keyed(n: nat): Entry -> bool { (e: Entry) => e.key == Int(n) }

  lemma KeyRewritten(e: Entry, n: nat)
    requires 1 <= n <= 4
    ensures Keyed(n)(e) <==> Has(Keyed(n), McRewrite(e))
  {
    if e.key == Int(n) {
      assert McRewrite(e)[0].key == Int(n) && McRewrite(e)[0] in McRewrite(e);
    }
    forall x | x in McRewrite(e) ensures x.key == e.key { KeyKept(e, x); }
  }

  /** It has a client data hash, a relying party, a user or an algorithm list exactly when the original had. */
  lemma KeysForwarded(entries: seq<Entry>, n: nat)
    requires 1 <= n <= 4
    ensures Has(Keyed(n), McEntries(entries)) <==> Has(Keyed(n), entries)
  {
    forall x | x in McInjected(entries) ensures !Keyed(n)(x) { }
    forall e | e in entries ensures Keyed(n)(e) <==> Has(Keyed(n), McRewrite(e)) { KeyRewritten(e, n); }
    Survives(Keyed(n), McRewrite, entries, McInjected(entries));
  }

  lemma EmptyRewritten()
    ensures McEntries([]) == [MC_OPTIONS]
  {
    assert FlatMap(McRewrite, []) == [] && McInjected([]) == [MC_OPTIONS];
    assert [] + [MC_OPTIONS] == [MC_OPTIONS];
    SortOfSorted([MC_OPTIONS]);
  }

  /**
   Nothing is supplied: a request with an empty map is forwarded with its options alone, without a
   relying party, a user or an algorithm.
   */
  lemma EmptyRequestForwarded(n: nat)
    requires 1 <= n <= 4
    ensures var data := [CMD_MAKE_CREDENTIAL, 0xA0];
            && RequestMap(McPayload(data)) == Some([MC_OPTIONS])
            && !Has(Keyed(n), [MC_OPTIONS]) && !Has(OffersEntry, [MC_OPTIONS])
  {
    var data := [CMD_MAKE_CREDENTIAL, 0xA0];
    assert Encode(Map([])) == [0xA0] && data == [CMD_MAKE_CREDENTIAL] + Encode(Map([]));
    ReadBack(CMD_MAKE_CREDENTIAL, []);
    McReadBack(data);
    EmptyRewritten();
    HasOne(Keyed(n), MC_OPTIONS);
    HasOne(OffersEntry, MC_OPTIONS);
  }
}
