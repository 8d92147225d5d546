/**
 Sanitising a request twice is sanitising it once, octet for octet, for every input: undecodable
 ones, ones with duplicate keys, ones whose values have unexpected types.
 */
module Ctap2Idempotence {
  import opened Bytes
  import opened Folds
  import opened Cbor
  import opened CborOrder
  import opened KeyFolds
  import opened Ctap2
  import opened Ctap2Wire

  // ---------------------------------------------------------------- descriptors

  /** A sorted pair of entries with different keys holds exactly these two values. */
  lemma ReadPair<B>(f: Entry -> Option<B>, kb: bytes, a: Entry, b: Entry)
    requires forall e: Entry :: KeyOf(e) != kb ==> f(e) == None
    ensures LastSome(f, Sort([a, b])) == f(b).Or(f(a))
  {
    SortedSamePerKey([a, b]);
    LastSomePerKey(f, kb, Sort([a, b]), [a, b]);
    LastSomeTwo(f, a, b);
  }

  lemma SortedPair(a: Entry, b: Entry)
    requires KeyLeq(a, b)
    ensures Sort([a, b]) == [a, b]
  {
    SortOfSorted([a, b]);
  }

  /** The rewritten descriptor, spelled out: "id" before "type", nothing else. */
  lemma DescriptorForm(id: Value, credType: Value)
    ensures Descriptor(id, credType) == Map([Entry(Text(ID), id), Entry(Text(TYPE), credType)])
  {
    SortedPair(Entry(Text(ID), id), Entry(Text(TYPE), credType));
  }

  lemma SanitizedDescriptorFixed(id: Value, credType: Value)
    ensures SanitizeDescriptor(Descriptor(id, credType)) == Some(Descriptor(id, credType))
  {
    var a, b := Entry(Text(ID), id), Entry(Text(TYPE), credType);
    ReadPair(IdValueOf, Encode(Text(ID)), a, b);
    ReadPair(TypeValueOf, Encode(Text(TYPE)), a, b);
  }

  lemma SanitizedItemFixed(v: Value)
    ensures FlatMap(SanitizedItem, SanitizedItem(v)) == SanitizedItem(v)
  {
    var d := SanitizeDescriptor(v);
    if d.Some? {
      var id := LastSome(IdValueOf, v.entries).value;
      SanitizedDescriptorFixed(id, LastSome(TypeValueOf, v.entries).GetOr(Text(PUBLIC_KEY)));
      FlatMapOne(SanitizedItem, d.value);
    }
  }

  lemma SanitizedItemsFixed(items: seq<Value>)
    ensures FlatMap(SanitizedItem, FlatMap(SanitizedItem, items)) == FlatMap(SanitizedItem, items)
  {
    forall x | x in items ensures FlatMap(SanitizedItem, SanitizedItem(x)) == SanitizedItem(x)
    {
      SanitizedItemFixed(x);
    }
    FlatMapFixed(SanitizedItem, items);
  }

  lemma {:induction false} SanitizedListFixed(key: Value, v: Value)
    ensures forall x | x in SanitizeList(key, v) :: x.key == key && SanitizeList(key, x.value) == [x]
  {
    if SanitizeList(key, v) != [] {
      SanitizedItemsFixed(v.items);
    }
  }

  /**
   A rewrite that leaves its own results alone, followed by a sort, is settled after one pass:
   `added` is what the first pass adds and `post` what the second one does.
   */
  lemma SettledAfterOnePass(g: Entry -> seq<Entry>, entries: seq<Entry>, added: seq<Entry>, post: seq<Entry>)
    requires KeepsKeys(g) && forall e | e in entries :: FlatMap(g, g(e)) == g(e)
    requires FlatMap(g, added) + post == added
    ensures var once := Sort(FlatMap(g, entries) + added); Sort(FlatMap(g, once) + post) == once
  {
    var kept := FlatMap(g, entries);
    SortedSamePerKey(kept + added);
    SortRewritten(g, Sort(kept + added), kept + added, post);
    FlatMapConcat(g, kept, added);
    FlatMapAfter(g, g, g, entries);
    Associative(kept, FlatMap(g, added), post);
  }

  // ---------------------------------------------------------------- GetAssertion

  lemma GaKeepsKeys()
    ensures KeepsKeys(GaRewrite)
  {
    forall e: Entry, x | x in GaRewrite(e) ensures x.key == e.key {
      SanitizedListFixed(e.key, e.value);
    }
  }

  lemma GaRewriteFixed(e: Entry)
    ensures FlatMap(GaRewrite, GaRewrite(e)) == GaRewrite(e)
  {
    SanitizedListFixed(e.key, e.value);
    SingletonFixed(GaRewrite, GaRewrite(e));
  }

  lemma GaOptionsRead(uv: bool)
    ensures UvIn(GaOptions(uv)) == Some(uv) && UpIn(GaOptions(uv)) == Some(true)
  {
    var a, b := Entry(Text(UP), Bool(true)), Entry(Text(UV), Bool(uv));
    assert UP[1] != UV[1];
    ReadPair(UvFlag, Encode(Text(UV)), a, b);
    ReadPair(UpFlag, Encode(Text(UP)), a, b);
  }

  /** The options of a sanitised request are the injected ones, whatever else it holds. */
  lemma GaUvOfSanitized(kept: seq<Entry>, uv: bool)
    ensures LastSome(UvIn, Sort(kept + [GaOptions(uv)])) == Some(uv)
  {
    var s := kept + [GaOptions(uv)];
    SortedSamePerKey(s);
    LastSomePerKey(UvIn, Encode(Int(5)), Sort(s), s);
    LastSomeConcat(UvIn, kept, [GaOptions(uv)]);
    LastSomeOne(UvIn, GaOptions(uv));
    GaOptionsRead(uv);
  }

  lemma GaSettled(entries: seq<Entry>, options: Entry)
    requires options.key == Int(5)
    ensures var once := Sort(FlatMap(GaRewrite, entries) + [options]);
            Sort(FlatMap(GaRewrite, once) + [options]) == once
  {
    GaKeepsKeys();
    forall e | e in entries ensures FlatMap(GaRewrite, GaRewrite(e)) == GaRewrite(e) { GaRewriteFixed(e); }
    FlatMapOne(GaRewrite, options);
    SettledAfterOnePass(GaRewrite, entries, [options], [options]);
  }

  lemma GaEntriesFixed(entries: seq<Entry>)
    ensures GaEntries(GaEntries(entries)) == GaEntries(entries)
  {
    var uv := LastSome(UvIn, entries).GetOr(true);
    GaUvOfSanitized(FlatMap(GaRewrite, entries), uv);
    GaSettled(entries, GaOptions(uv));
  }

  /** Sanitising a sanitised GetAssertion request changes no octet. */
  lemma GetAssertionIdempotent(raw: bytes)
    requires IsSlice(raw)
    ensures GaPayload(GaPayload(raw)) == GaPayload(raw)
  {
    if RequestMap(raw).Some? {
      GaReadBack(raw);
      GaEntriesFixed(RequestMap(raw).value);
    }
  }

  // ---------------------------------------------------------------- MakeCredential: rp and user

  /** A field of a rewritten record: the record's own entry for it, as nothing else has that key. */
  lemma ReadField<B>(f: Entry -> Option<B>, kb: bytes, own: seq<Entry>, other: Entry -> seq<Entry>, entries: seq<Entry>)
    requires forall e: Entry :: KeyOf(e) != kb ==> f(e) == None
    requires forall e: Entry :: other(e) == [] || (other(e) == [e] && f(e) == None)
    ensures LastSome(f, Sort(own + FlatMap(other, entries))) == LastSome(f, own)
  {
    var rest := FlatMap(other, entries);
    SortedSamePerKey(own + rest);
    LastSomePerKey(f, kb, Sort(own + rest), own + rest);
    LastSomeConcat(f, own, rest);
    if LastSome(f, rest).Some? {
      var x := LastSomeMember(f, rest);
      var e := FlatMapMember(other, entries, x);
    }
  }

  lemma OthersTwice(other: Entry -> seq<Entry>, entries: seq<Entry>)
    requires forall e: Entry :: other(e) == [] || other(e) == [e]
    ensures FlatMap(other, FlatMap(other, entries)) == FlatMap(other, entries)
  {
    forall e | e in entries ensures FlatMap(other, other(e)) == other(e) {
      if other(e) != [] { FlatMapOne(other, e); }
    }
    FlatMapFixed(other, entries);
  }

  lemma OthersKeepKeys(other: Entry -> seq<Entry>)
    requires forall e: Entry :: other(e) == [] || other(e) == [e]
    ensures KeepsKeys(other)
  {
  }

  /** Sorting first makes no difference to what is copied. */
  lemma OthersOfSorted(own: seq<Entry>, other: Entry -> seq<Entry>, s: seq<Entry>)
    requires KeepsKeys(other)
    ensures Sort(own + FlatMap(other, Sort(s))) == Sort(own + FlatMap(other, s))
  {
    SortedSamePerKey(s);
    SortRewritten(other, Sort(s), s, own);
  }

  /** The remaining entries of a rewritten record are those it was given. */
  lemma OthersFixed(own: seq<Entry>, other: Entry -> seq<Entry>, entries: seq<Entry>)
    requires forall e: Entry :: other(e) == [] || other(e) == [e]
    requires FlatMap(other, own) == []
    ensures Sort(own + FlatMap(other, Sort(own + FlatMap(other, entries)))) == Sort(own + FlatMap(other, entries))
  {
    var rest := FlatMap(other, entries);
    OthersKeepKeys(other);
    OthersOfSorted(own, other, own + rest);
    OthersTwice(other, entries);
    FlatMapConcat(other, own, rest);
    assert [] + rest == rest;
  }

  lemma RpRecordReads(id: bytes, name: bytes, rp: seq<Entry>)
    ensures LastSome(IdValueOf, RpRecord(id, name, rp)) == Some(Text(id))
    ensures LastSome(NameValueOf, RpRecord(id, name, rp)) == Some(Text(name))
  {
    var a, b := Entry(Text(ID), Text(id)), Entry(Text(NAME), Text(name));
    ReadField(IdValueOf, Encode(Text(ID)), [a, b], RpOther, rp);
    ReadField(NameValueOf, Encode(Text(NAME)), [a, b], RpOther, rp);
    LastSomeTwo(IdValueOf, a, b);
    LastSomeTwo(NameValueOf, a, b);
  }

  lemma RpRecordFixed(id: bytes, name: bytes, rp: seq<Entry>)
    ensures RpRecord(id, name, RpRecord(id, name, rp)) == RpRecord(id, name, rp)
  {
    var a, b := Entry(Text(ID), Text(id)), Entry(Text(NAME), Text(name));
    FlatMapTwo(RpOther, a, b);
    OthersFixed([a, b], RpOther, rp);
  }

  lemma CleanRpFixed(rp: seq<Entry>)
    ensures CleanRp(CleanRp(rp)) == CleanRp(rp)
  {
    RpRecordReads(RpId(rp), RpName(rp), rp);
    assert RpId(rp) != [] && RpName(rp) != [];
    RpRecordFixed(RpId(rp), RpName(rp), rp);
  }

  lemma UserRecordReads(id: Value, name: bytes, displayName: bytes, user: seq<Entry>)
    ensures LastSome(IdValueOf, UserRecord(id, name, displayName, user)) == Some(id)
    ensures LastSome(NameValueOf, UserRecord(id, name, displayName, user)) == Some(Text(name))
    ensures LastSome(DisplayNameValueOf, UserRecord(id, name, displayName, user)) == Some(Text(displayName))
  {
    var a, b, c := Entry(Text(ID), id), Entry(Text(NAME), Text(name)), Entry(Text(DISPLAY_NAME), Text(displayName));
    ReadField(IdValueOf, Encode(Text(ID)), [a, b, c], UserOther, user);
    FoldThree(IdValueOf, UserOther, a, b, c);
    ReadField(NameValueOf, Encode(Text(NAME)), [a, b, c], UserOther, user);
    FoldThree(NameValueOf, UserOther, a, b, c);
    ReadField(DisplayNameValueOf, Encode(Text(DISPLAY_NAME)), [a, b, c], UserOther, user);
    FoldThree(DisplayNameValueOf, UserOther, a, b, c);
  }

  lemma UserRecordFixed(id: Value, name: bytes, displayName: bytes, user: seq<Entry>)
    ensures UserRecord(id, name, displayName, UserRecord(id, name, displayName, user))
         == UserRecord(id, name, displayName, user)
  {
    var a, b, c := Entry(Text(ID), id), Entry(Text(NAME), Text(name)), Entry(Text(DISPLAY_NAME), Text(displayName));
    FoldThree(IdValueOf, UserOther, a, b, c);
    OthersFixed([a, b, c], UserOther, user);
  }

  lemma CleanUserFixed(user: seq<Entry>)
    ensures CleanUser(CleanUser(user)) == CleanUser(user)
  {
    UserRecordReads(UserId(user), UserName(user), UserDisplayName(user), user);
    assert UserName(user) != [] && UserDisplayName(user) != [];
    UserRecordFixed(UserId(user), UserName(user), UserDisplayName(user), user);
  }

  // ---------------------------------------------------------------- MakeCredential

  lemma Es256Fixed()
    ensures OffersEs256(ES256_PARAMS)
  {
    var s := [ES256_FIELD, Entry(Text(TYPE), Text(PUBLIC_KEY))];
    SortMembers(s);
    assert s[0] in Sort(s);
    assert Map(Sort(s)) in ES256_PARAMS.items;
  }

  lemma McKeepsKeys()
    ensures KeepsKeys(McRewrite)
  {
    forall e: Entry, x | x in McRewrite(e) ensures x.key == e.key {
      SanitizedListFixed(e.key, e.value);
    }
  }

  lemma McEntryFixed(e: Entry)
    ensures forall x | x in McRewrite(e) :: McRewrite(x) == [x]
  {
    match e.key
    case Int(n) =>
      if n == 2 {
        CleanRpFixed(EntriesOf(e.value));
      } else if n == 3 {
        CleanUserFixed(EntriesOf(e.value));
      } else if n == 4 {
        Es256Fixed();
      } else if n == 5 {
        SanitizedListFixed(e.key, e.value);
      }
    case _ =>
  }

  lemma McRewriteFixed(e: Entry)
    ensures FlatMap(McRewrite, McRewrite(e)) == McRewrite(e)
  {
    McEntryFixed(e);
    SingletonFixed(McRewrite, McRewrite(e));
  }

  lemma SingletonFixed(g: Entry -> seq<Entry>, s: seq<Entry>)
    requires |s| <= 1 && forall x | x in s :: g(x) == [x]
    ensures FlatMap(g, s) == s
  {
    if s != [] {
      assert s == [s[0]];
      FlatMapOne(g, s[0]);
    }
  }

  lemma Injected(g: Entry -> seq<Entry>, entries: seq<Entry>, options: Entry, added: seq<Entry>)
    requires added == if HasKey(options.key, entries) then [] else [options]
    requires forall e | e in entries && e.key == options.key :: options in g(e)
    ensures options in Sort(FlatMap(g, entries) + added)
  {
    SortMembers(FlatMap(g, entries) + added);
    if HasKey(options.key, entries) {
      var e :| e in entries && e.key == options.key;
      RewrittenMember(g, entries, e, options);
    }
  }

  /** A sanitised MakeCredential request has options. */
  lemma McHasOptions(entries: seq<Entry>)
    ensures HasKey(Int(7), McEntries(entries)) && MC_OPTIONS in McEntries(entries)
  {
    assert MC_OPTIONS.key == Int(7);
    Injected(McRewrite, entries, MC_OPTIONS, McInjected(entries));
  }

  lemma {:induction false} RewrittenMember(g: Entry -> seq<Entry>, entries: seq<Entry>, e: Entry, x: Entry)
    requires e in entries && x in g(e)
    ensures x in FlatMap(g, entries)
  {
    if e != entries[|entries| - 1] {
      RewrittenMember(g, entries[..|entries| - 1], e, x);
    }
  }

  lemma McSettled(entries: seq<Entry>, injected: seq<Entry>)
    requires |injected| <= 1 && forall x | x in injected :: McRewrite(x) == [x]
    ensures var once := Sort(FlatMap(McRewrite, entries) + injected); Sort(FlatMap(McRewrite, once) + []) == once
  {
    McKeepsKeys();
    forall e | e in entries ensures FlatMap(McRewrite, McRewrite(e)) == McRewrite(e) { McRewriteFixed(e); }
    SingletonFixed(McRewrite, injected);
    assert injected + [] == injected;
    SettledAfterOnePass(McRewrite, entries, injected, []);
  }

  lemma McEntriesFixed(entries: seq<Entry>)
    ensures McEntries(McEntries(entries)) == McEntries(entries)
  {
    McHasOptions(entries);
    McSettled(entries, McInjected(entries));
  }

  /** Sanitising a sanitised MakeCredential request changes no octet. */
  lemma MakeCredentialIdempotent(raw: bytes)
    requires IsSlice(raw)
    ensures McPayload(McPayload(raw)) == McPayload(raw)
  {
    if RequestMap(raw).Some? {
      McReadBack(raw);
      McEntriesFixed(RequestMap(raw).value);
    }
  }
}
