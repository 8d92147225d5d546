/**
 What a sanitised request means to whoever parses it next, compared with the original: relying
 party, client data hash, credential list and options of GetAssertion; effective relying party of
 MakeCredential. Then the readers that stop early, and the identifiers in responses.
 */
module Ctap2Meaning {
  import opened Bytes
  import opened Folds
  import opened Cbor
  import opened CborOrder
  import opened KeyFolds
  import opened Ctap2
  import opened Ctap2Wire
  import opened Ctap2Idempotence

  // ---------------------------------------------------------------- descriptors: which id survives

  /** The credential id a sanitised descriptor carries: its last "id", if that is a byte string. */
  function SettledId(v: Value): seq<bytes>
  {
    if v.Map? && LastSome(IdValueOf, v.entries).Some? && LastSome(IdValueOf, v.entries).value.Bytes?
    then [LastSome(IdValueOf, v.entries).value.b]
    else []
  }

  /** No byte-string "id" of the descriptor is followed by another "id". */
  predicate NoShadowedId(v: Value)
  {
    v.Map? ==>
      forall i, j | 0 <= i < j < |v.entries| :: IdBytesOf(v.entries[i]).Some? ==> v.entries[j].key != Text(ID)
  }

  lemma {:induction false} NoIds(entries: seq<Entry>)
    ensures FlatMap(IdBytesIn, entries) == [] <==> forall i | 0 <= i < |entries| :: IdBytesOf(entries[i]).None?
  {
    if entries == [] {
    } else {
      NoIds(entries[..|entries| - 1]);
    }
  }

  lemma {:induction false} DescriptorIdsSettled(entries: seq<Entry>)
    ensures var all, settled := FlatMap(IdBytesIn, entries), SettledId(Map(entries));
            if NoShadowedId(Map(entries)) then settled == all else |settled| < |all|
  {
    if entries == [] {
    } else {
      var init, last := entries[..|entries| - 1], entries[|entries| - 1];
      DescriptorIdsSettled(init);
      assert entries == init + [last];
      SettledStep(init, last);
    }
  }

  lemma SettledSnoc(init: seq<Entry>, last: Entry)
    ensures SettledId(Map(init + [last])) == if last.key == Text(ID) then IdBytesIn(last) else SettledId(Map(init))
  {
    LastSomeSnoc(IdValueOf, init, last);
  }

  lemma SettledStep(init: seq<Entry>, last: Entry)
    requires var all, settled := FlatMap(IdBytesIn, init), SettledId(Map(init));
             if NoShadowedId(Map(init)) then settled == all else |settled| < |all|
    ensures var all, settled := FlatMap(IdBytesIn, init + [last]), SettledId(Map(init + [last]));
            if NoShadowedId(Map(init + [last])) then settled == all else |settled| < |all|
  {
    var all := FlatMap(IdBytesIn, init);
    NoIds(init);
    NoShadowedStep(init, last);
    FlatMapSnoc(IdBytesIn, init, last);
    SettledSnoc(init, last);
    if last.key == Text(ID) {
      assert NoShadowedId(Map(init + [last])) <==> all == [];
    } else {
      assert all + [] == all;
    }
  }

  lemma NoShadowedStep(init: seq<Entry>, last: Entry)
    ensures NoShadowedId(Map(init + [last])) <==>
            if last.key == Text(ID) then forall i | 0 <= i < |init| :: IdBytesOf(init[i]).None?
            else NoShadowedId(Map(init))
  {
    var s := init + [last];
    if NoShadowedId(Map(s)) {
      forall i, j | 0 <= i < j < |init| && IdBytesOf(init[i]).Some? ensures init[j].key != Text(ID) {
        assert s[i] == init[i] && s[j] == init[j];
      }
      if last.key == Text(ID) {
        forall i | 0 <= i < |init| ensures IdBytesOf(init[i]).None? {
          assert s[i] == init[i] && s[|init|] == last;
        }
      }
    }
  }

  lemma SettledOrFewer(v: Value)
    ensures NoShadowedId(v) ==> SettledId(v) == DescriptorIds(v)
    ensures !NoShadowedId(v) ==> |SettledId(v)| < |DescriptorIds(v)|
  {
    if v.Map? {
      DescriptorIdsSettled(v.entries);
    }
  }

  lemma DescriptorIdsOf(id: Value, credType: Value)
    ensures DescriptorIds(Descriptor(id, credType)) == if id.Bytes? then [id.b] else []
  {
    var a, b := Entry(Text(ID), id), Entry(Text(TYPE), credType);
    SortedSamePerKey([a, b]);
    FlatMapPerKey(IdBytesIn, Encode(Text(ID)), Sort([a, b]), [a, b]);
    FlatMapTwo(IdBytesIn, a, b);
  }

  lemma SanitizedDescriptorId(v: Value)
    ensures FlatMap(DescriptorIds, SanitizedItem(v)) == SettledId(v)
  {
    var d := SanitizeDescriptor(v);
    if d.Some? {
      FlatMapOne(DescriptorIds, d.value);
      DescriptorIdsOf(LastSome(IdValueOf, v.entries).value, LastSome(TypeValueOf, v.entries).GetOr(Text(PUBLIC_KEY)));
    }
  }

  // ---------------------------------------------------------------- lists of descriptors

  /** The ids that a sanitised list carries. */
  function SettledListIds(v: Value): seq<bytes>
  {
    if v.Array? then FlatMap(SettledId, v.items) else []
  }

  predicate IdsSettled(v: Value)
  {
    v.Array? ==> forall d | d in v.items :: NoShadowedId(d)
  }

  lemma ListIdsSettled(v: Value)
    ensures SettledListIds(v) == ListIds(v) <==> IdsSettled(v)
    ensures SettledListIds(v) == ListIds(v) || |SettledListIds(v)| < |ListIds(v)|
  {
    if v.Array? {
      forall d | d in v.items
        ensures SettledId(d) == DescriptorIds(d) <==> NoShadowedId(d)
        ensures SettledId(d) == DescriptorIds(d) || |SettledId(d)| < |DescriptorIds(d)|
      {
        SettledOrFewer(d);
      }
      FlatMapShorter(SettledId, DescriptorIds, v.items);
    }
  }

  lemma FlatMapShorter<A, B>(f: A -> seq<B>, g: A -> seq<B>, s: seq<A>)
    requires forall x | x in s :: f(x) == g(x) || |f(x)| < |g(x)|
    ensures FlatMap(f, s) == FlatMap(g, s) <==> forall x | x in s :: f(x) == g(x)
    ensures FlatMap(f, s) == FlatMap(g, s) || |FlatMap(f, s)| < |FlatMap(g, s)|
  {
    FlatMapAgree(f, g, s);
  }

  /** A sanitised list, allow list or exclude list, has the settled ids, or is dropped for want of any descriptor. */
  lemma SanitizeListIds(key: Value, v: Value)
    ensures var l := SanitizeList(key, v);
            || (l == [] && SettledListIds(v) == [])
            || (|l| == 1 && l[0].key == key && ListIds(l[0].value) == SettledListIds(v))
  {
    if v.Array? {
      forall d | d in v.items ensures FlatMap(DescriptorIds, SanitizedItem(d)) == SettledId(d) {
        SanitizedDescriptorId(d);
      }
      FlatMapAfter(DescriptorIds, SanitizedItem, SettledId, v.items);
    }
  }

  // ---------------------------------------------------------------- GetAssertion: the list as a whole

  function SettledIds(e: Entry): seq<bytes> { if e.key == Int(3) then SettledListIds(e.value) else [] }

  predicate ListSettled(key: nat, e: Entry) { e.key == Int(key) ==> IdsSettled(e.value) }

  lemma GaRewriteReads(e: Entry)
    ensures LastSome(RpIdOf, GaRewrite(e)) == RpIdOf(e)
    ensures LastSome(HashOf, GaRewrite(e)) == HashOf(e)
    ensures FlatMap(AllowedIds, GaRewrite(e)) == SettledIds(e)
  {
    if e.key == Int(3) {
      SanitizeListIds(e.key, e.value);
      if GaRewrite(e) != [] {
        var x := GaRewrite(e)[0];
        assert GaRewrite(e) == [x];
        LastSomeOne(RpIdOf, x);
        LastSomeOne(HashOf, x);
        FlatMapOne(AllowedIds, x);
      }
    } else if GaRewrite(e) != [] {
      LastSomeOne(RpIdOf, e);
      LastSomeOne(HashOf, e);
      FlatMapOne(AllowedIds, e);
    }
  }

  lemma GaEntriesRead(entries: seq<Entry>)
    ensures LastSome(RpIdOf, GaEntries(entries)) == LastSome(RpIdOf, entries)
    ensures LastSome(HashOf, GaEntries(entries)) == LastSome(HashOf, entries)
    ensures FlatMap(AllowedIds, GaEntries(entries)) == FlatMap(SettledIds, entries)
  {
    var kept, options := FlatMap(GaRewrite, entries), GaOptions(LastSome(UvIn, entries).GetOr(true));
    var s := kept + [options];
    forall e | e in entries
      ensures LastSome(RpIdOf, GaRewrite(e)) == RpIdOf(e) && LastSome(HashOf, GaRewrite(e)) == HashOf(e)
      ensures FlatMap(AllowedIds, GaRewrite(e)) == SettledIds(e)
    {
      GaRewriteReads(e);
    }
    SortedSamePerKey(s);
    ReadKept(RpIdOf, 1, entries, options);
    ReadKept(HashOf, 2, entries, options);
    FlatMapPerKey(AllowedIds, Encode(Int(3)), Sort(s), s);
    FlatMapConcat(AllowedIds, kept, [options]);
    FlatMapOne(AllowedIds, options);
    FlatMapAfter(AllowedIds, GaRewrite, SettledIds, entries);
  }

  lemma ReadKept(f: Entry -> Option<bytes>, key: nat, entries: seq<Entry>, options: Entry)
    requires forall e: Entry :: KeyOf(e) != Encode(Int(key)) ==> f(e) == None
    requires (forall e | e in entries :: LastSome(f, GaRewrite(e)) == f(e)) && f(options) == None
    ensures LastSome(f, Sort(FlatMap(GaRewrite, entries) + [options])) == LastSome(f, entries)
  {
    var kept := FlatMap(GaRewrite, entries);
    SortedSamePerKey(kept + [options]);
    LastSomePerKey(f, Encode(Int(key)), Sort(kept + [options]), kept + [options]);
    LastSomeConcat(f, kept, [options]);
    LastSomeOne(f, options);
    LastSomeAfter(f, GaRewrite, f, entries);
  }

  lemma GaFlagsRead(entries: seq<Entry>)
    ensures LastSome(UpIn, GaEntries(entries)) == Some(true)
    ensures LastSome(UvIn, GaEntries(entries)) == Some(LastSome(UvIn, entries).GetOr(true))
  {
    var uv := LastSome(UvIn, entries).GetOr(true);
    var kept := FlatMap(GaRewrite, entries);
    var s := kept + [GaOptions(uv)];
    GaUvOfSanitized(kept, uv);
    SortedSamePerKey(s);
    LastSomePerKey(UpIn, Encode(Int(5)), Sort(s), s);
    LastSomeConcat(UpIn, kept, [GaOptions(uv)]);
    LastSomeOne(UpIn, GaOptions(uv));
    GaOptionsRead(uv);
  }

  /**
   Parsing the sanitised GetAssertion request: same relying party and client data hash; user
   presence on; user verification as last requested, on if never; and the same credential ids in
   the same order exactly when no descriptor hides a byte-string "id" behind another "id".
   */
  lemma GetAssertionMeaning(raw: bytes)
    requires IsSlice(raw) && RequestMap(raw).Some?
    ensures var was, now := RequestIn(raw), RequestIn(GaPayload(raw));
            && now.rpId == was.rpId
            && now.clientDataHash == was.clientDataHash
            && now.userPresence
            && now.userVerification == LastSome(UvIn, RequestMap(raw).value).GetOr(true)
            && |now.allowList| <= |was.allowList|
            && (now.allowList == was.allowList <==> forall e | e in RequestMap(raw).value :: ListSettled(3, e))
  {
    var entries := RequestMap(raw).value;
    GaReadBack(raw);
    GaEntriesRead(entries);
    GaFlagsRead(entries);
    forall e | e in entries
      ensures SettledIds(e) == AllowedIds(e) <==> ListSettled(3, e)
      ensures SettledIds(e) == AllowedIds(e) || |SettledIds(e)| < |AllowedIds(e)|
    {
      ListIdsSettled(e.value);
    }
    FlatMapShorter(SettledIds, AllowedIds, entries);
  }

  const FIRST_ID := Entry(Text(ID), Bytes([1]))
  const SECOND_ID := Entry(Text(ID), Bytes([2]))
  const TWO_IDS := Map([FIRST_ID, SECOND_ID])
  const TWO_ID_LIST := Entry(Int(3), Array([TWO_IDS]))

  lemma TwoIdsRead()
    ensures !NoShadowedId(TWO_IDS)
    ensures AllowedIds(TWO_ID_LIST) == [[1], [2]] && SettledIds(TWO_ID_LIST) == [[2]]
  {
    assert IdBytesOf(TWO_IDS.entries[0]).Some? && TWO_IDS.entries[1].key == Text(ID);
    FlatMapTwo(IdBytesIn, FIRST_ID, SECOND_ID);
    LastSomeTwo(IdValueOf, FIRST_ID, SECOND_ID);
    FlatMapOne(DescriptorIds, TWO_IDS);
    FlatMapOne(SettledId, TWO_IDS);
  }

  lemma TwoIdsRequest()
    ensures WellFormed(Map([TWO_ID_LIST])) && |Encode(Map([TWO_ID_LIST]))| == 14
  {
    FieldNamesWellFormed();
    PairWellFormed(Text(ID), Bytes([1]), Text(ID), Bytes([2]));
    SingletonWellFormed(Text(ID), TWO_IDS);
    SingletonWellFormed(Int(3), Array([TWO_IDS]));
    SmallSize(TWO_ID_LIST, TWO_ID_LIST, TWO_IDS);
    SmallSize(FIRST_ID, SECOND_ID, Null);
    EntrySize(Int(3), Array([TWO_IDS]));
    EntrySize(Text(ID), Bytes([1]));
    EntrySize(Text(ID), Bytes([2]));
    StringSize(ID);
    StringSize([1]);
    StringSize([2]);
    assert |Encode(Int(3))| == 1;
  }

  /** A request that lists a descriptor with two ids: parsed with both, forwarded with the second alone. */
  lemma ShadowedIdIsLost()
    ensures var data := [CMD_GET_ASSERTION] + Encode(Map([TWO_ID_LIST]));
            RequestIn(data).allowList == [[1], [2]] && RequestIn(GaPayload(data)).allowList == [[2]]
  {
    var data := [CMD_GET_ASSERTION] + Encode(Map([TWO_ID_LIST]));
    TwoIdsRead();
    TwoIdsRequest();
    ReadBack(CMD_GET_ASSERTION, [TWO_ID_LIST]);
    GaReadBack(data);
    GaEntriesRead([TWO_ID_LIST]);
    FlatMapOne(AllowedIds, TWO_ID_LIST);
    FlatMapOne(SettledIds, TWO_ID_LIST);
  }

  /** Descriptors with at most one "id" hide none. */
  lemma OneIdIsSettled(v: Value)
    requires v.Map? ==> forall i, j | 0 <= i < j < |v.entries| ::
               v.entries[i].key != Text(ID) || v.entries[j].key != Text(ID)
    ensures NoShadowedId(v)
  {
  }

  // ---------------------------------------------------------------- stopping early

  lemma FirstIdIsHead(entries: seq<Entry>)
    ensures FirstSome(IdBytesOf, entries) == HeadOf(FlatMap(IdBytesIn, entries))
  {
    FirstIsHead(IdBytesOf, IdBytesIn, entries);
  }

  /** The early-exit search finds the head of the list the full parse collects, on every input. */
  lemma FirstAllowListIdIsHead(raw: bytes)
    ensures FirstAllowListId(raw) == HeadOf(RequestIn(raw).allowList)
  {
    var entries := RequestMap(raw).GetOr([]);
    forall e | e in entries ensures FirstAllowedId(e) == HeadOf(AllowedIds(e)) {
      if e.key == Int(3) && e.value.Array? {
        forall d | d in e.value.items ensures FirstDescriptorId(d) == HeadOf(DescriptorIds(d)) {
          if d.Map? { FirstIdIsHead(d.entries); }
        }
        FirstIsHead(FirstDescriptorId, DescriptorIds, e.value.items);
      }
    }
    FirstIsHead(FirstAllowedId, AllowedIds, entries);
  }

  /** A listed id is no longer than the request. */
  lemma AllowedIdFits(data: bytes, id: bytes)
    requires IsSlice(data) && FirstAllowListId(data) == Some(id)
    ensures |id| <= MAX_ARG
  {
    RequestFits(data);
    var e := FirstSomeMember(FirstAllowedId, RequestMap(data).value);
    assert EntryFits(e, |data|);
    var d := FirstSomeMember(FirstDescriptorId, e.value.items);
    assert Fits(d, |data|);
    var f := FirstSomeMember(IdBytesOf, d.entries);
    assert Fits(f.value, |data|);
  }

  // ---------------------------------------------------------------- responses

  /** A written map starts with major type 5, never with the status octet 0x00. */
  lemma ResponseReadBack(entries: seq<Entry>)
    requires WellFormed(Map(entries))
    ensures ResponseMap(Encode(Map(entries))) == Some(entries)
    ensures ResponseMap([CTAP2_OK] + Encode(Map(entries))) == Some(entries)
  {
    var s := Encode(Map(entries));
    RoundTrip(Map(entries), []);
    assert s + [] == s && ([CTAP2_OK] + s)[1..] == s;
    assert s[0] == WriteHead(5, |entries|)[0] >= 160;
  }

  /** Whatever order a map is sorted into, a reader of one key finds the first entry that has it. */
  lemma FirstInSorted<B>(f: Entry -> Option<B>, kb: bytes, first: Entry, others: seq<Entry>)
    requires (forall e: Entry :: KeyOf(e) != kb ==> f(e) == None) && f(first).Some?
    ensures FirstSome(f, Sort([first] + others)) == f(first)
  {
    var s := [first] + others;
    SortedSamePerKey(s);
    FirstSomePerKey(f, kb, Sort(s), s);
    assert s[..1] == [first] && [first][..0] == [];
    assert FirstSome(f, [first]) == f(first);
    FirstSomePrefix(f, s, 1);
  }

  lemma DescriptorFirstId(id: bytes, credType: Value)
    ensures FirstDescriptorId(Descriptor(Bytes(id), credType)) == Some(id)
  {
    var a, b := Entry(Text(ID), Bytes(id)), Entry(Text(TYPE), credType);
    FirstInSorted(IdBytesOf, Encode(Text(ID)), a, [b]);
    assert [a] + [b] == [a, b];
  }

  lemma AssertionEntries(credential: Value, authData: bytes, signature: bytes)
    requires WellFormed(credential) && |authData| <= MAX_ARG && |signature| <= MAX_ARG
    ensures WellFormed(Map(Sort([Entry(Int(1), credential), Entry(Int(2), Bytes(authData)),
                                 Entry(Int(3), Bytes(signature))])))
  {
    var a, b, c := Entry(Int(1), credential), Entry(Int(2), Bytes(authData)), Entry(Int(3), Bytes(signature));
    ThreeWellFormed(a, b, c);
    SortedMapWellFormed([a, b, c]);
  }

  lemma AssertionFirst(a: Entry, b: Entry, c: Entry)
    requires CredentialIdOf(a).Some?
    ensures FirstSome(CredentialIdOf, Sort([a, b, c])) == CredentialIdOf(a)
  {
    FirstInSorted(CredentialIdOf, Encode(Int(1)), a, [b, c]);
    assert [a] + [b, c] == [a, b, c];
  }

  lemma AssertionResponseReads(credential: Value, authData: bytes, signature: bytes)
    requires WellFormed(credential) && |authData| <= MAX_ARG && |signature| <= MAX_ARG
    requires FirstDescriptorId(credential).Some?
    ensures var response := AssertionResponse(credential, authData, signature);
            && AssertionIdIn(response) == FirstDescriptorId(credential)
            && AssertionIdIn([CTAP2_OK] + response) == FirstDescriptorId(credential)
  {
    var a, b, c := Entry(Int(1), credential), Entry(Int(2), Bytes(authData)), Entry(Int(3), Bytes(signature));
    AssertionEntries(credential, authData, signature);
    AssertionFirst(a, b, c);
    ResponseReadBack(Sort([a, b, c]));
  }

  /** The synthetic answer to a silent probe names the credential it was built for. */
  lemma SilentAssertionNames(rpIdHash: bytes, id: bytes)
    requires |rpIdHash| == 32 && |id| <= MAX_ARG
    ensures var response := SilentAssertion(rpIdHash, Descriptor(Bytes(id), Text(PUBLIC_KEY)));
            && AssertionIdIn(response) == Some(id)
            && AssertionIdIn([CTAP2_OK] + response) == Some(id)
  {
    FieldNamesWellFormed();
    DescriptorWellFormed(Bytes(id), Text(PUBLIC_KEY));
    DescriptorFirstId(id, Text(PUBLIC_KEY));
    AssertionResponseReads(Descriptor(Bytes(id), Text(PUBLIC_KEY)), SilentAuthData(rpIdHash), DummySignature());
  }

  lemma DescriptorSize(id: bytes)
    ensures |Encode(Descriptor(Bytes(id), Text(PUBLIC_KEY)))| == 21 + ArgWidth(|id|) + |id|
  {
    DescriptorForm(Bytes(id), Text(PUBLIC_KEY));
    SmallSize(Entry(Text(ID), Bytes(id)), Entry(Text(TYPE), Text(PUBLIC_KEY)), Null);
    EntrySize(Text(ID), Bytes(id));
    EntrySize(Text(TYPE), Text(PUBLIC_KEY));
    BytesSize(id);
    StringSize(ID);
    StringSize(TYPE);
    StringSize(PUBLIC_KEY);
  }

  lemma InOrder(a: Entry, b: Entry, c: Entry)
    requires a.key == Int(1) && b.key == Int(2) && c.key == Int(3)
    ensures Sort([a, b, c]) == [a, b, c]
  {
    NumericOrder(1, 2);
    NumericOrder(2, 3);
    NumericOrder(1, 3);
    SortOfSorted([a, b, c]);
  }

  /** The synthetic answer is that much longer than the credential id. */
  lemma SilentAssertionSize(rpIdHash: bytes, id: bytes)
    requires |rpIdHash| == 32
    ensures |SilentAssertion(rpIdHash, Descriptor(Bytes(id), Text(PUBLIC_KEY)))| == 130 + ArgWidth(|id|) + |id|
  {
    var descriptor := Descriptor(Bytes(id), Text(PUBLIC_KEY));
    var a, b := Entry(Int(1), descriptor), Entry(Int(2), Bytes(SilentAuthData(rpIdHash)));
    var c := Entry(Int(3), Bytes(DummySignature()));
    InOrder(a, b, c);
    TripleSize(a, b, c);
    DescriptorSize(id);
    EntrySize(a.key, a.value);
    EntrySize(b.key, b.value);
    EntrySize(c.key, c.value);
    BytesSize(SilentAuthData(rpIdHash));
    BytesSize(DummySignature());
    SmallInt(1);
    SmallInt(2);
    SmallInt(3);
  }

  // ---------------------------------------------------------------- attested credential data

  /** Authenticator data with attested credential data: W3C WebAuthn Level 2, sections 6.1 and 6.5.1. */
  function AuthenticatorData(rpIdHash: bytes, flags: byte, signCount: bytes,
                             aaguid: bytes, id: bytes, more: bytes): bytes
    requires |id| < 0x1_0000
  {
    rpIdHash + [flags] + signCount + aaguid + BigEndian(|id|, 2) + id + more
  }

  lemma AttestedIdRoundTrip(rpIdHash: bytes, flags: byte, signCount: bytes, aaguid: bytes, id: bytes, more: bytes)
    requires |rpIdHash| == 32 && |signCount| == 4 && |aaguid| == 16 && |id| < 0x1_0000
    ensures AttestedId(AuthenticatorData(rpIdHash, flags, signCount, aaguid, id, more))
         == if flags / 64 % 2 == 1 && id != [] then Some(id) else None
  {
    var data := AuthenticatorData(rpIdHash, flags, signCount, aaguid, id, more);
    Pow256Values();
    BigEndianRoundTrip(|id|, 2);
    assert data[32] == flags;
    assert data[53..55] == BigEndian(|id|, 2);
    assert data[55..55 + |id|] == id;
  }

  /** From a MakeCredential response with distinct keys the registered id comes back, status octet or not. */
  lemma MakeCredentialIdRoundTrip(entries: seq<Entry>, i: nat, rpIdHash: bytes, flags: byte, signCount: bytes,
                                  aaguid: bytes, id: bytes, more: bytes)
    requires WellFormed(Map(entries)) && DistinctKeys(entries)
    requires |rpIdHash| == 32 && |signCount| == 4 && |aaguid| == 16 && 0 < |id| < 0x1_0000 && flags / 64 % 2 == 1
    requires i < |entries|
    requires entries[i] == Entry(Int(2), Bytes(AuthenticatorData(rpIdHash, flags, signCount, aaguid, id, more)))
    ensures RegisteredIdIn(Encode(Map(entries))) == Some(id)
    ensures RegisteredIdIn([CTAP2_OK] + Encode(Map(entries))) == Some(id)
  {
    ResponseReadBack(entries);
    AttestedIdRoundTrip(rpIdHash, flags, signCount, aaguid, id, more);
    if FirstSome(AttestedIdOf, entries[..i]).Some? {
      var e := FirstSomeMember(AttestedIdOf, entries[..i]);
    }
    Snoc(entries, i);
    assert FirstSome(AttestedIdOf, entries[..i + 1]) == Some(id);
    FirstSomePrefix(AttestedIdOf, entries, i + 1);
  }
}
