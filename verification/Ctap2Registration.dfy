/** What MakeCredential sanitising leaves as it was. */
module Ctap2Registration {
  import opened Bytes
  import opened Folds
  import opened Cbor
  import opened CborOrder
  import opened KeyFolds
  import opened Ctap2
  import opened Ctap2Idempotence
  import opened Ctap2Meaning

  // ---------------------------------------------------------------- whole entries

  /** Rewriting, adding entries under other keys and sorting leaves the entries of key `kb` to the rewrite. */
  lemma KeyAfterRewrite(g: Entry -> seq<Entry>, kb: bytes, entries: seq<Entry>, added: seq<Entry>)
    requires KeepsKeys(g) && forall x | x in added :: KeyOf(x) != kb
    ensures WithKey(kb, Sort(FlatMap(g, entries) + added)) == FlatMap(g, WithKey(kb, entries))
  {
    SortStable(kb, FlatMap(g, entries) + added);
    WithKeyConcat(kb, FlatMap(g, entries), added);
    WithKeyNone(kb, added);
    WithKeyFlatMap(g, kb, entries);
  }

  lemma KeptAsIs(g: Entry -> seq<Entry>, s: seq<Entry>)
    requires forall x | x in s :: g(x) == [x]
    ensures FlatMap(g, s) == s
  {
    FlatMapIdentity(g, s);
  }

  lemma OnlyIntKey(n: nat, entries: seq<Entry>)
    requires n < 24 && forall e | e in entries :: WellFormed(e.key)
    ensures forall e | e in WithKey(Encode(Int(n)), entries) :: e in entries && e.key == Int(n)
  {
    forall e | e in WithKey(Encode(Int(n)), entries) ensures e in entries && e.key == Int(n) {
      WithKeyMember(Encode(Int(n)), entries, e);
      EncodeInjective(e.key, Int(n));
    }
  }

  lemma InjectedKey(entries: seq<Entry>)
    ensures forall x | x in McInjected(entries) :: KeyOf(x) == Encode(Int(7))
    ensures Encode(Int(1)) != Encode(Int(7)) && Encode(Int(4)) != Encode(Int(7)) && Encode(Int(5)) != Encode(Int(7))
  {
    EncodeInjective(Int(1), Int(7));
    EncodeInjective(Int(4), Int(7));
    EncodeInjective(Int(5), Int(7));
  }

  /** Entries of a key that the rewrite leaves alone go through untouched. */
  lemma IntKeyKept(n: nat, entries: seq<Entry>)
    requires n < 24 && Encode(Int(n)) != Encode(Int(7)) && forall e | e in entries :: WellFormed(e.key)
    requires forall e | e in entries && e.key == Int(n) :: McRewrite(e) == [e]
    ensures WithKey(Encode(Int(n)), McEntries(entries)) == WithKey(Encode(Int(n)), entries)
  {
    McKeepsKeys();
    InjectedKey(entries);
    KeyAfterRewrite(McRewrite, Encode(Int(n)), entries, McInjected(entries));
    OnlyIntKey(n, entries);
    KeptAsIs(McRewrite, WithKey(Encode(Int(n)), entries));
  }

  /** The client data hash entries go through untouched. */
  lemma ClientDataHashKept(entries: seq<Entry>)
    requires forall e | e in entries :: WellFormed(e.key)
    ensures WithKey(Encode(Int(1)), McEntries(entries)) == WithKey(Encode(Int(1)), entries)
  {
    InjectedKey(entries);
    IntKeyKept(1, entries);
  }

  /** The algorithm lists go through untouched when none of them offers ES256. */
  lemma AlgorithmsKept(entries: seq<Entry>)
    requires forall e | e in entries :: WellFormed(e.key)
    requires forall e | e in entries && e.key == Int(4) :: !OffersEs256(e.value)
    ensures WithKey(Encode(Int(4)), McEntries(entries)) == WithKey(Encode(Int(4)), entries)
  {
    InjectedKey(entries);
    IntKeyKept(4, entries);
  }

  // ---------------------------------------------------------------- the other fields of rp and user

  lemma OtherFieldKept(own: seq<Entry>, other: Entry -> seq<Entry>, kb: bytes, entries: seq<Entry>)
    requires (forall e: Entry :: other(e) == [] || other(e) == [e])
             && forall e: Entry | KeyOf(e) == kb :: other(e) == [e]
    requires forall x | x in own :: KeyOf(x) != kb
    ensures WithKey(kb, Sort(own + FlatMap(other, entries))) == WithKey(kb, entries)
  {
    SortStable(kb, own + FlatMap(other, entries));
    WithKeyConcat(kb, own, FlatMap(other, entries));
    WithKeyNone(kb, own);
    WithKeyFlatMap(other, kb, entries);
    forall e | e in WithKey(kb, entries) ensures other(e) == [e] { WithKeyMember(kb, entries, e); }
    KeptAsIs(other, WithKey(kb, entries));
  }

  /** Every field of the relying party besides "id" and "name" is kept, in order. */
  lemma RpFieldsKept(rp: seq<Entry>, key: Value)
    requires WellFormed(key) && key != Text(ID) && key != Text(NAME)
    ensures WithKey(Encode(key), CleanRp(rp)) == WithKey(Encode(key), rp)
  {
    KeyDiffers(key, "id");
    KeyDiffers(key, "name");
    OtherFieldKept([Entry(Text(ID), Text(RpId(rp))), Entry(Text(NAME), Text(RpName(rp)))], RpOther, Encode(key), rp);
  }

  lemma KeyDiffers(key: Value, name: string)
    requires WellFormed(key) && |name| < 24 && key != Text(Ascii(name))
    ensures Encode(key) != Encode(Text(Ascii(name)))
  {
    AsciiText(name);
    EncodeInjective(key, Text(Ascii(name)));
  }

  /** Every field of the user besides the three names is kept, in order, and so is a user id that was given. */
  lemma UserFieldsKept(user: seq<Entry>, key: Value)
    requires WellFormed(key) && key != Text(ID) && key != Text(NAME) && key != Text(DISPLAY_NAME)
    ensures WithKey(Encode(key), CleanUser(user)) == WithKey(Encode(key), user)
    ensures LastSome(IdValueOf, user).Some? ==> LastSome(IdValueOf, CleanUser(user)) == LastSome(IdValueOf, user)
  {
    KeyDiffers(key, "id");
    KeyDiffers(key, "name");
    KeyDiffers(key, "displayName");
    UserRecordReads(UserId(user), UserName(user), UserDisplayName(user), user);
    OtherFieldKept([Entry(Text(ID), UserId(user)), Entry(Text(NAME), Text(UserName(user))),
                    Entry(Text(DISPLAY_NAME), Text(UserDisplayName(user)))], UserOther, Encode(key), user);
  }

  // ---------------------------------------------------------------- the exclude list

  function ExcludedIds(e: Entry): seq<bytes> { if e.key == Int(5) then ListIds(e.value) else [] }

  function SettledExcluded(e: Entry): seq<bytes> { if e.key == Int(5) then SettledListIds(e.value) else [] }

  lemma McRewriteExcludes(e: Entry)
    ensures FlatMap(ExcludedIds, McRewrite(e)) == SettledExcluded(e)
  {
    if e.key == Int(5) {
      SanitizeListIds(e.key, e.value);
      assert McRewrite(e) == SanitizeList(e.key, e.value);
    }
    if McRewrite(e) != [] {
      var x := McRewrite(e)[0];
      ExcludedAlone(x);
    }
  }

  lemma ExcludedAlone(x: Entry)
    ensures FlatMap(ExcludedIds, [x]) == ExcludedIds(x)
  {
    FlatMapOne(ExcludedIds, x);
  }

  lemma ExcludesAfter(entries: seq<Entry>)
    ensures FlatMap(ExcludedIds, McEntries(entries)) == FlatMap(SettledExcluded, entries)
  {
    var kept, injected := FlatMap(McRewrite, entries), McInjected(entries);
    SortedSamePerKey(kept + injected);
    FlatMapPerKey(ExcludedIds, Encode(Int(5)), Sort(kept + injected), kept + injected);
    FlatMapConcat(ExcludedIds, kept, injected);
    FlatMapOne(ExcludedIds, MC_OPTIONS);
    forall e | e in entries ensures FlatMap(ExcludedIds, McRewrite(e)) == SettledExcluded(e) { McRewriteExcludes(e); }
    FlatMapAfter(ExcludedIds, McRewrite, SettledExcluded, entries);
  }

  /**
   The excluded credential ids are the same, in the same order, exactly when no descriptor hides a
   byte-string "id" behind another "id"; otherwise there are fewer.
   */
  lemma ExcludeListMeaning(entries: seq<Entry>)
    ensures var was, now := FlatMap(ExcludedIds, entries), FlatMap(ExcludedIds, McEntries(entries));
            && |now| <= |was|
            && (now == was <==> forall e | e in entries :: ListSettled(5, e))
  {
    ExcludesAfter(entries);
    forall e | e in entries
      ensures SettledExcluded(e) == ExcludedIds(e) <==> ListSettled(5, e)
      ensures SettledExcluded(e) == ExcludedIds(e) || |SettledExcluded(e)| < |ExcludedIds(e)|
    {
      ListIdsSettled(e.value);
    }
    FlatMapShorter(SettledExcluded, ExcludedIds, entries);
  }
}
