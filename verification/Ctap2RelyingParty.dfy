/**
 The relying party a MakeCredential request names, before and after normalisation: the engine
 decides on the normalised request, the user means the original one.
 */
module Ctap2RelyingParty {
  import opened Bytes
  import opened Folds
  import opened Cbor
  import opened CborOrder
  import opened KeyFolds
  import opened Ctap2
  import opened Ctap2Wire
  import opened Ctap2Idempotence

  /** What a key-2 entry names once rewritten, whatever its value was. */
  function NormalizedRp(e: Entry): Option<bytes>
  {
    if e.key == Int(2) then Some(RpId(EntriesOf(e.value))) else None
  }

  lemma RecordNames(id: bytes, name: bytes, rp: seq<Entry>)
    requires id != []
    ensures LastSome(NonEmptyIdOf, RpRecord(id, name, rp)) == Some(id)
  {
    var a, b := Entry(Text(ID), Text(id)), Entry(Text(NAME), Text(name));
    ReadField(NonEmptyIdOf, Encode(Text(ID)), [a, b], RpOther, rp);
    LastSomeTwo(NonEmptyIdOf, a, b);
  }

  lemma CleanRpNames(rp: seq<Entry>)
    ensures RpNamedBy(Entry(Int(2), Map(CleanRp(rp)))) == Some(RpId(rp))
  {
    RecordNames(RpId(rp), RpName(rp), rp);
  }

  lemma McRewriteNames(e: Entry)
    ensures FirstSome(RpNamedBy, McRewrite(e)) == NormalizedRp(e)
  {
    McKeepsKeys();
    if e.key == Int(2) {
      CleanRpNames(EntriesOf(e.value));
    }
    if McRewrite(e) != [] {
      var x := McRewrite(e)[0];
      assert x in McRewrite(e) && x.key == e.key;
      assert McRewrite(e) == [x] && [x][..0] == [];
    }
  }

  /** Reading the relying party of a rewritten request reads the first key-2 entry, normalised. */
  lemma SanitizedRp(entries: seq<Entry>)
    ensures RegistrationRp(McEntries(entries)) == FirstSome(NormalizedRp, entries).GetOr(NO_REGISTRATION_RP)
  {
    var kept, injected := FlatMap(McRewrite, entries), McInjected(entries);
    SortedSamePerKey(kept + injected);
    FirstSomePerKey(RpNamedBy, Encode(Int(2)), Sort(kept + injected), kept + injected);
    FirstSomeConcat(RpNamedBy, kept, injected);
    InjectedNamesNoRp(entries);
    forall e | e in entries ensures FirstSome(RpNamedBy, McRewrite(e)) == NormalizedRp(e) { McRewriteNames(e); }
    FirstSomeAfter(RpNamedBy, McRewrite, NormalizedRp, entries);
  }

  lemma InjectedNamesNoRp(entries: seq<Entry>)
    ensures FirstSome(RpNamedBy, McInjected(entries)) == None
  {
    if FirstSome(RpNamedBy, McInjected(entries)).Some? {
      var e := FirstSomeMember(RpNamedBy, McInjected(entries));
    }
  }

  /** Under distinct keys the last value of a field is its only one. */
  lemma {:induction false} OnlyValue(f: Entry -> Option<Value>, g: Entry -> Option<bytes>,
                                    key: Value, entries: seq<Entry>)
    requires DistinctKeys(entries)
    requires forall e: Entry :: f(e) == (if e.key == key then Some(e.value) else None) && g(e) == NonEmptyText(f(e))
    ensures LastSome(g, entries) == NonEmptyText(LastSome(f, entries))
  {
    if entries == [] {
    } else {
      var init, last := entries[..|entries| - 1], entries[|entries| - 1];
      OnlyValue(f, g, key, init);
      if last.key == key && LastSome(g, init).Some? {
        var e := LastSomeMember(g, init);
      }
    }
  }

  lemma NormalizedNames(e: Entry)
    requires e.key == Int(2) && DistinctKeys(EntriesOf(e.value))
    ensures NormalizedRp(e) == Some(RpNamedBy(e).GetOr(WEBAUTHN))
  {
    OnlyValue(IdValueOf, NonEmptyIdOf, Text(ID), EntriesOf(e.value));
    OnlyValue(NameValueOf, NonEmptyNameOf, Text(NAME), EntriesOf(e.value));
  }

  lemma {:induction false} OnlyEntry(f: Entry -> Option<bytes>, entries: seq<Entry>, e: Entry)
    requires DistinctKeys(entries) && e in entries && forall x: Entry :: x.key != e.key ==> f(x) == None
    ensures FirstSome(f, entries) == f(e)
  {
    var init, last := entries[..|entries| - 1], entries[|entries| - 1];
    if e == last {
      if FirstSome(f, init).Some? {
        var x := FirstSomeMember(f, init);
      }
    } else {
      assert entries == init + [last];
      assert e in init;
      OnlyEntry(f, init, e);
    }
  }

  /** Distinct keys at the top level and in the relying party entity. */
  predicate DistinctRequest(raw: bytes)
  {
    RequestMap(raw).Some? ==>
      && DistinctKeys(RequestMap(raw).value)
      && forall e | e in RequestMap(raw).value && e.key == Int(2) :: DistinctKeys(EntriesOf(e.value))
  }

  /**
   The relying party survives normalisation whenever the request names one; a key-2 entry that
   names none becomes "webauthn"; without key 2 the default stays.
   */
  lemma RpIdentity(raw: bytes)
    requires IsSlice(raw) && DistinctRequest(raw)
    ensures var was, now := RegistrationRpIn(raw), RegistrationRpIn(McPayload(raw));
            && (RequestMap(raw).None? || !HasKey(Int(2), RequestMap(raw).value) ==> now == was == NO_REGISTRATION_RP)
            && forall e | e in RequestMap(raw).GetOr([]) && e.key == Int(2) ::
                 if RpNamedBy(e).Some? then now == was == RpNamedBy(e).value
                 else now == WEBAUTHN && was == NO_REGISTRATION_RP
  {
    if RequestMap(raw).Some? {
      var entries := RequestMap(raw).value;
      McReadBack(raw);
      SanitizedRp(entries);
      if HasKey(Int(2), entries) {
        forall e | e in entries && e.key == Int(2)
          ensures FirstSome(RpNamedBy, entries) == RpNamedBy(e)
          ensures FirstSome(NormalizedRp, entries) == Some(RpNamedBy(e).GetOr(WEBAUTHN))
        {
          OnlyEntry(RpNamedBy, entries, e);
          OnlyEntry(NormalizedRp, entries, e);
          NormalizedNames(e);
        }
      } else {
        NoRpEntry(entries);
      }
    }
  }

  lemma NoRpEntry(entries: seq<Entry>)
    requires !HasKey(Int(2), entries)
    ensures FirstSome(RpNamedBy, entries) == None && FirstSome(NormalizedRp, entries) == None
  {
    if FirstSome(RpNamedBy, entries).Some? {
      var e := FirstSomeMember(RpNamedBy, entries);
    }
    if FirstSome(NormalizedRp, entries).Some? {
      var e := FirstSomeMember(NormalizedRp, entries);
    }
  }

  /** The relying party the engine takes a request to be for: what its first key-2 entry names once normalised. */
  function ForwardedRp(raw: bytes): bytes
  {
    FirstSome(NormalizedRp, RequestMap(raw).GetOr([])).GetOr(NO_REGISTRATION_RP)
  }

  lemma NotDummies()
    ensures !DummyRp(WEBAUTHN) && !DummyRp(NO_REGISTRATION_RP)
  {
    assert |WEBAUTHN| == 8 && WEBAUTHN[0] == 119 && |NO_REGISTRATION_RP| == 20;
  }

  lemma DistinctDecision(raw: bytes)
    requires IsSlice(raw) && DistinctRequest(raw)
    ensures DummyRp(RegistrationRpIn(McPayload(raw))) <==> DummyRp(RegistrationRpIn(raw))
  {
    RpIdentity(raw);
    NotDummies();
    if RequestMap(raw).Some? && HasKey(Int(2), RequestMap(raw).value) {
      var e :| e in RequestMap(raw).value && e.key == Int(2);
    }
  }

  function RpEntry(e: Entry): Option<Entry> { if e.key == Int(2) then Some(e) else None }

  /** The last "id" of the first relying party entry is a non-empty text. */
  predicate NamesById(entries: seq<Entry>)
  {
    var first := FirstSome(RpEntry, entries);
    first.Some? && NonEmptyText(LastSome(IdValueOf, EntriesOf(first.value.value))).Some?
  }

  /** A last "id" that is a non-empty text is also the last of the non-empty text ids. */
  lemma LastIdNames(rp: seq<Entry>)
    requires NonEmptyText(LastSome(IdValueOf, rp)).Some?
    ensures LastSome(NonEmptyIdOf, rp) == NonEmptyText(LastSome(IdValueOf, rp))
  {
    if IdValueOf(rp[|rp| - 1]).None? {
      LastIdNames(rp[..|rp| - 1]);
    }
  }

  lemma NamedById(e: Entry)
    requires e.key == Int(2) && NonEmptyText(LastSome(IdValueOf, EntriesOf(e.value))).Some?
    ensures RpNamedBy(e) == NormalizedRp(e) && RpNamedBy(e).Some?
  {
    LastIdNames(EntriesOf(e.value));
  }

  /** Both readers stop at the first relying party entry when it names its relying party by its last "id". */
  lemma {:induction false} SameRp(entries: seq<Entry>)
    requires NamesById(entries)
    ensures FirstSome(RpNamedBy, entries) == FirstSome(NormalizedRp, entries) && FirstSome(RpNamedBy, entries).Some?
  {
    var init, last := entries[..|entries| - 1], entries[|entries| - 1];
    if FirstSome(RpEntry, init).Some? {
      SameRp(init);
    } else {
      NoFirstRp(init);
      NoRpEntry(init);
      NamedById(last);
    }
  }

  lemma {:induction false} NoFirstRp(entries: seq<Entry>)
    requires FirstSome(RpEntry, entries) == None
    ensures !HasKey(Int(2), entries)
  {
    if entries == [] {
    } else {
      var init, last := entries[..|entries| - 1], entries[|entries| - 1];
      NoFirstRp(init);
      assert entries == init + [last];
    }
  }

  /**
   Every request is decided by the relying party of its first key-2 entry: the last "id" of it, if
   that is a non-empty text, else the last "name", else "webauthn". That is deciding by the relying
   party that the request itself names if that last "id" is a non-empty text, whatever is repeated,
   or if no key is repeated.
   */
  lemma DummyDecision(raw: bytes)
    requires IsSlice(raw)
    ensures RegistrationRpIn(McPayload(raw)) == ForwardedRp(raw)
    ensures NamesById(RequestMap(raw).GetOr([])) ==> ForwardedRp(raw) == RegistrationRpIn(raw)
    ensures DistinctRequest(raw) ==> (DummyRp(ForwardedRp(raw)) <==> DummyRp(RegistrationRpIn(raw)))
  {
    if RequestMap(raw).Some? {
      McReadBack(raw);
      SanitizedRp(RequestMap(raw).value);
    }
    if NamesById(RequestMap(raw).GetOr([])) {
      SameRp(RequestMap(raw).GetOr([]));
    }
    if DistinctRequest(raw) {
      DistinctDecision(raw);
    }
  }
}
