/**
 What the readers of src/ctap2.rs find in a request or a response that was written entry by entry:
 which entry they take, and what they say when there is none.
 */
module Ctap2Reading {
  import opened Bytes
  import opened Folds
  import opened Cbor
  import opened CborOrder
  import opened KeyFolds
  import opened Ctap2
  import opened Ctap2Wire
  import opened Ctap2Idempotence
  import opened Ctap2Meaning
  import opened Ctap2Octets

  // ---------------------------------------------------------------- GetAssertion

  /** A GetAssertion request with these entries. */
  function AssertionRequestWith(entries: seq<Entry>): bytes { [0x02] + Encode(Map(entries)) }

  lemma Parsed(entries: seq<Entry>)
    requires WellFormed(Map(entries))
    ensures RequestMap(AssertionRequestWith(entries)) == Some(entries)
    ensures RequestIn(AssertionRequestWith(entries)) == RequestOf(entries)
  {
    ReadBack(0x02, entries);
  }

  /** The relying party is the last text under key 1, the hash the last byte string under key 2. */
  lemma ParsedNames(entries: seq<Entry>, i: nat)
    requires WellFormed(Map(entries)) && i < |entries|
    ensures var req, e := RequestIn(AssertionRequestWith(entries)), entries[i];
            && (e.key == Int(1) && e.value.Text?
                && (forall j | i < j < |entries| :: entries[j].key != Int(1) || !entries[j].value.Text?)
                ==> req.rpId == e.value.t)
            && (e.key == Int(2) && e.value.Bytes?
                && (forall j | i < j < |entries| :: entries[j].key != Int(2) || !entries[j].value.Bytes?)
                ==> req.clientDataHash == e.value.b)
  {
    Parsed(entries);
    var e := entries[i];
    if e.key == Int(1) && e.value.Text?
       && forall j | i < j < |entries| :: entries[j].key != Int(1) || !entries[j].value.Text? {
      LastSomeAt(RpIdOf, entries, i);
    }
    if e.key == Int(2) && e.value.Bytes?
       && forall j | i < j < |entries| :: entries[j].key != Int(2) || !entries[j].value.Bytes? {
      LastSomeAt(HashOf, entries, i);
    }
  }

  /** An entry that sets the flag: options with a boolean under that name. */
  predicate SetsFlag(e: Entry, name: bytes)
  {
    e.key == Int(5) && e.value.Map? && exists o | o in e.value.entries :: o.key == Text(name) && o.value.Bool?
  }

  /** The last boolean of that name in the last options that have one. */
  predicate LastFlag(entries: seq<Entry>, name: bytes, i: nat, k: nat, b: bool)
  {
    && i < |entries| && entries[i].key == Int(5) && entries[i].value.Map?
    && (forall j | i < j < |entries| :: !SetsFlag(entries[j], name))
    && var options := entries[i].value.entries;
       && k < |options| && options[k] == Entry(Text(name), Bool(b))
       && forall l | k < l < |options| :: options[l].key != Text(name) || !options[l].value.Bool?
  }

  lemma OptionsFlags(options: seq<Entry>)
    ensures (forall o | o in options :: o.key != Text(UP) || !o.value.Bool?) ==> LastSome(UpFlag, options) == None
    ensures (forall o | o in options :: o.key != Text(UV) || !o.value.Bool?) ==> LastSome(UvFlag, options) == None
  {
    if forall o | o in options :: o.key != Text(UP) || !o.value.Bool? {
      LastSomeNone(UpFlag, options);
    }
    if forall o | o in options :: o.key != Text(UV) || !o.value.Bool? {
      LastSomeNone(UvFlag, options);
    }
  }

  lemma UnsetFlags(e: Entry)
    ensures !SetsFlag(e, UP) ==> UpIn(e) == None
    ensures !SetsFlag(e, UV) ==> UvIn(e) == None
  {
    if e.key == Int(5) && e.value.Map? {
      OptionsFlags(e.value.entries);
    }
  }

  lemma UpRead(entries: seq<Entry>, i: nat, k: nat, b: bool)
    requires LastFlag(entries, UP, i, k, b)
    ensures LastSome(UpIn, entries) == Some(b)
  {
    forall j | i < j < |entries| ensures UpIn(entries[j]) == None { UnsetFlags(entries[j]); }
    LastSomeAt(UpFlag, entries[i].value.entries, k);
    LastSomeAt(UpIn, entries, i);
  }

  lemma UvRead(entries: seq<Entry>, i: nat, k: nat, b: bool)
    requires LastFlag(entries, UV, i, k, b)
    ensures LastSome(UvIn, entries) == Some(b)
  {
    forall j | i < j < |entries| ensures UvIn(entries[j]) == None { UnsetFlags(entries[j]); }
    LastSomeAt(UvFlag, entries[i].value.entries, k);
    LastSomeAt(UvIn, entries, i);
  }

  /** Presence and verification are the last boolean "up" and "uv" of the options. */
  lemma ParsedFlags(entries: seq<Entry>, i: nat, k: nat, b: bool)
    requires WellFormed(Map(entries))
    ensures var req := RequestIn(AssertionRequestWith(entries));
            && (LastFlag(entries, UP, i, k, b) ==> req.userPresence == b)
            && (LastFlag(entries, UV, i, k, b) ==> req.userVerification == b)
  {
    Parsed(entries);
    if LastFlag(entries, UP, i, k, b) {
      UpRead(entries, i, k, b);
    }
    if LastFlag(entries, UV, i, k, b) {
      UvRead(entries, i, k, b);
    }
  }

  /** A descriptor with one "id", a byte string. */
  predicate PlainDescriptor(d: Value, id: bytes)
  {
    && d.Map?
    && exists k | 0 <= k < |d.entries| ::
         && d.entries[k] == Entry(Text(ID), Bytes(id))
         && forall l | 0 <= l < |d.entries| && l != k :: d.entries[l].key != Text(ID)
  }

  lemma PlainId(d: Value, id: bytes)
    requires PlainDescriptor(d, id)
    ensures DescriptorIds(d) == [id]
  {
    var k :| 0 <= k < |d.entries| && d.entries[k] == Entry(Text(ID), Bytes(id))
             && forall l | 0 <= l < |d.entries| && l != k :: d.entries[l].key != Text(ID);
    FlatMapAlone(IdBytesIn, d.entries, k);
  }

  /** The ids of the only allow list, in order, and its length; with more lists, the length of the last. */
  lemma ParsedList(entries: seq<Entry>, i: nat, ids: seq<bytes>)
    requires WellFormed(Map(entries)) && i < |entries| && entries[i].key == Int(3) && entries[i].value.Array?
    requires forall j | i < j < |entries| :: entries[j].key != Int(3) || !entries[j].value.Array?
    ensures var req, list := RequestIn(AssertionRequestWith(entries)), entries[i].value.items;
            && req.allowListLen == |list|
            && ((forall j | 0 <= j < i :: entries[j].key != Int(3) || !entries[j].value.Array?)
                && |list| == |ids| && (forall k | 0 <= k < |list| :: PlainDescriptor(list[k], ids[k]))
                ==> req.allowList == ids)
  {
    Parsed(entries);
    var list := entries[i].value.items;
    LastSomeAt(AllowLenOf, entries, i);
    if (forall j | 0 <= j < i :: entries[j].key != Int(3) || !entries[j].value.Array?)
       && |list| == |ids| && forall k | 0 <= k < |list| :: PlainDescriptor(list[k], ids[k]) {
      forall k | 0 <= k < |list| ensures DescriptorIds(list[k]) == [ids[k]] { PlainId(list[k], ids[k]); }
      FlatMapEach(DescriptorIds, list, ids);
      FlatMapAlone(AllowedIds, entries, i);
    }
  }

  /** What is missing: "Passkey Authentication", no hash, presence, no verification, no list. */
  lemma ParsedDefaults(entries: seq<Entry>)
    ensures var req := RequestOf(entries);
            && ((forall e | e in entries :: e.key != Int(1) || !e.value.Text?) ==> req.rpId == NO_ASSERTION_RP)
            && ((forall e | e in entries :: e.key != Int(2) || !e.value.Bytes?) ==> req.clientDataHash == [])
            && ((forall e | e in entries :: !SetsFlag(e, UP)) ==> req.userPresence)
            && ((forall e | e in entries :: !SetsFlag(e, UV)) ==> !req.userVerification)
            && ((forall e | e in entries :: e.key != Int(3) || !e.value.Array?) ==>
                  req.allowListLen == 0 && req.allowList == [])
  {
    if forall e | e in entries :: e.key != Int(1) || !e.value.Text? {
      LastSomeNone(RpIdOf, entries);
    }
    if forall e | e in entries :: e.key != Int(2) || !e.value.Bytes? {
      LastSomeNone(HashOf, entries);
    }
    FlagDefaults(entries);
    if forall e | e in entries :: e.key != Int(3) || !e.value.Array? {
      LastSomeNone(AllowLenOf, entries);
      FlatMapNothing(AllowedIds, entries);
    }
  }

  lemma FlagDefaults(entries: seq<Entry>)
    ensures (forall e | e in entries :: !SetsFlag(e, UP)) ==> LastSome(UpIn, entries) == None
    ensures (forall e | e in entries :: !SetsFlag(e, UV)) ==> LastSome(UvIn, entries) == None
  {
    forall e { UnsetFlags(e); }
    if forall e | e in entries :: !SetsFlag(e, UP) {
      LastSomeNone(UpIn, entries);
    }
    if forall e | e in entries :: !SetsFlag(e, UV) {
      LastSomeNone(UvIn, entries);
    }
  }

  /** Requests that do not decode to a map are parsed as an empty one. */
  lemma ParsedNothing(raw: bytes)
    requires |raw| <= 1 || Decode(raw[1..]).Fail? || !Decode(raw[1..]).value.Map?
    ensures RequestIn(raw) == AssertionRequest(NO_ASSERTION_RP, [], true, false, 0, [])
  {
    ParsedDefaults([]);
  }

  // ---------------------------------------------------------------- GetAssertion as forwarded

  lemma GaKeeps(n: nat, entries: seq<Entry>)
    requires (n == 1 || n == 2) && forall e | e in entries :: WellFormed(e.key)
    ensures WithKey(Encode(Int(n)), GaEntries(entries)) == WithKey(Encode(Int(n)), entries)
  {
    var uv, kb := LastSome(UvIn, entries).GetOr(true), Encode(Int(n));
    GaKeepsKeys();
    EncodeInjective(Int(n), Int(5));
    SortStable(kb, FlatMap(GaRewrite, entries) + [GaOptions(uv)]);
    WithKeyConcat(kb, FlatMap(GaRewrite, entries), [GaOptions(uv)]);
    WithKeyNone(kb, [GaOptions(uv)]);
    WithKeyFlatMap(GaRewrite, kb, entries);
    forall i | 0 <= i < |WithKey(kb, entries)|
      ensures GaRewrite(WithKey(kb, entries)[i]) == [WithKey(kb, entries)[i]]
    {
      var e := WithKey(kb, entries)[i];
      WithKeyMember(kb, entries, e);
      EncodeInjective(e.key, Int(n));
    }
    FlatMapIdentity(GaRewrite, WithKey(kb, entries));
  }

  /** The relying party id and the hash are forwarded as they came, in order; "uv" as last set, or true. */
  lemma AssertionForwarded(entries: seq<Entry>, i: nat, k: nat, b: bool)
    requires forall e | e in entries :: WellFormed(e.key)
    requires LastFlag(entries, UV, i, k, b) || (b && forall e | e in entries :: !SetsFlag(e, UV))
    ensures WithKey(Encode(Int(1)), GaEntries(entries)) == WithKey(Encode(Int(1)), entries)
    ensures WithKey(Encode(Int(2)), GaEntries(entries)) == WithKey(Encode(Int(2)), entries)
    ensures Entry(Int(5), Map([Entry(Text(UP), Bool(true)), Entry(Text(UV), Bool(b))])) in GaEntries(entries)
  {
    GaKeeps(1, entries);
    GaKeeps(2, entries);
    if LastFlag(entries, UV, i, k, b) {
      UvRead(entries, i, k, b);
    } else {
      FlagDefaults(entries);
    }
    OptionsForm(b);
    SortMembers(FlatMap(GaRewrite, entries) + [GaOptions(b)]);
  }

  /** A sanitised descriptor: the last "id" and the last "type", or "public-key"; nothing without an "id". */
  lemma DescriptorForwarded(d: seq<Entry>, i: nat, k: nat)
    requires i < |d| && d[i].key == Text(ID) && forall j | i < j < |d| :: d[j].key != Text(ID)
    ensures (forall j | 0 <= j < |d| :: d[j].key != Text(TYPE)) ==>
              SanitizeDescriptor(Map(d))
              == Some(Map([Entry(Text(ID), d[i].value), Entry(Text(TYPE), Text(PUBLIC_KEY))]))
    ensures k < |d| && d[k].key == Text(TYPE) && (forall j | k < j < |d| :: d[j].key != Text(TYPE)) ==>
              SanitizeDescriptor(Map(d)) == Some(Map([Entry(Text(ID), d[i].value), Entry(Text(TYPE), d[k].value)]))
  {
    LastSomeAt(IdValueOf, d, i);
    if forall j | 0 <= j < |d| :: d[j].key != Text(TYPE) {
      LastSomeNone(TypeValueOf, d);
      DescriptorForm(d[i].value, Text(PUBLIC_KEY));
    }
    if k < |d| && d[k].key == Text(TYPE) && forall j | k < j < |d| :: d[j].key != Text(TYPE) {
      LastSomeAt(TypeValueOf, d, k);
      DescriptorForm(d[i].value, d[k].value);
    }
  }

  lemma DescriptorDropped(v: Value)
    requires v.Map? ==> forall j | 0 <= j < |v.entries| :: v.entries[j].key != Text(ID)
    ensures SanitizeDescriptor(v) == None
  {
    if v.Map? {
      LastSomeNone(IdValueOf, v.entries);
    }
  }

  // ---------------------------------------------------------------- the relying party of MakeCredential

  function RegistrationWith(entries: seq<Entry>): bytes { [0x01] + Encode(Map(entries)) }

  /** A non-empty text under that name. */
  predicate NamesText(e: Entry, name: bytes) { e.key == Text(name) && e.value.Text? && e.value.t != [] }

  predicate LastText(rp: seq<Entry>, name: bytes, k: nat)
  {
    k < |rp| && NamesText(rp[k], name) && forall l | k < l < |rp| :: !NamesText(rp[l], name)
  }

  /** The relying party an rp map names: its last non-empty "id", else its last non-empty "name". */
  predicate NamesRp(rp: seq<Entry>, k: nat)
  {
    LastText(rp, ID, k) || ((forall f | f in rp :: !NamesText(f, ID)) && LastText(rp, NAME, k))
  }

  lemma NamedByFirst(e: Entry, k: nat)
    requires e.key == Int(2) && e.value.Map? && NamesRp(e.value.entries, k)
    ensures RpNamedBy(e) == Some(e.value.entries[k].value.t)
  {
    var rp := e.value.entries;
    if LastText(rp, ID, k) {
      LastSomeAt(NonEmptyIdOf, rp, k);
    } else {
      forall l | 0 <= l < |rp| ensures NonEmptyIdOf(rp[l]).None? { assert rp[l] in rp && !NamesText(rp[l], ID); }
      LastSomeNone(NonEmptyIdOf, rp);
      LastSomeAt(NonEmptyNameOf, rp, k);
    }
  }

  /** Not a map, or one without a non-empty "id" or "name". */
  predicate NamesNone(v: Value)
  {
    v.Map? ==> forall f | f in v.entries :: !NamesText(f, ID) && !NamesText(f, NAME)
  }

  lemma NotNamed(e: Entry)
    requires e.key != Int(2) || NamesNone(e.value)
    ensures RpNamedBy(e) == None
  {
    if e.key == Int(2) && e.value.Map? {
      var rp := e.value.entries;
      forall l | 0 <= l < |rp| ensures NonEmptyIdOf(rp[l]).None? && NonEmptyNameOf(rp[l]).None? {
        assert rp[l] in rp && !NamesText(rp[l], ID) && !NamesText(rp[l], NAME);
      }
      LastSomeNone(NonEmptyIdOf, rp);
      LastSomeNone(NonEmptyNameOf, rp);
    }
  }

  /** The relying party read from a request is what its first rp map names that names any; else it is the default. */
  lemma RegistrationNamed(entries: seq<Entry>, i: nat, k: nat)
    requires WellFormed(Map(entries)) && i < |entries|
    requires entries[i].key == Int(2) && entries[i].value.Map? && NamesRp(entries[i].value.entries, k)
    requires forall j | 0 <= j < i :: entries[j].key != Int(2) || NamesNone(entries[j].value)
    ensures RegistrationRpIn(RegistrationWith(entries)) == entries[i].value.entries[k].value.t
  {
    ReadBack(0x01, entries);
    NamedByFirst(entries[i], k);
    forall j | 0 <= j < i ensures RpNamedBy(entries[j]) == None { NotNamed(entries[j]); }
    FirstSomeAt(RpNamedBy, entries, i);
  }

  lemma RegistrationUnnamed(entries: seq<Entry>)
    requires WellFormed(Map(entries)) && forall e | e in entries :: e.key != Int(2) || NamesNone(e.value)
    ensures RegistrationRpIn(RegistrationWith(entries)) == NO_REGISTRATION_RP
  {
    ReadBack(0x01, entries);
    forall j | 0 <= j < |entries| ensures RpNamedBy(entries[j]) == None { NotNamed(entries[j]); }
    FirstSomeNone(RpNamedBy, entries);
  }

  // ---------------------------------------------------------------- responses

  predicate HasIdBytes(v: Value) { v.Map? && exists f | f in v.entries :: f.key == Text(ID) && f.value.Bytes? }

  lemma NoIdBytes(e: Entry)
    requires e.key != Int(1) || !HasIdBytes(e.value)
    ensures CredentialIdOf(e) == None
  {
    if e.value.Map? && e.key == Int(1) {
      FirstSomeNone(IdBytesOf, e.value.entries);
    }
  }

  /** Attested credential data, exactly: the flag is set, and the id is there in full and not empty. */
  lemma AttestedExactly(authData: bytes, id: bytes)
    ensures AttestedId(authData) == Some(id) <==>
            && |authData| >= 55 && authData[32] / 0x40 % 2 == 1
            && id != [] && |id| == 0x100 * (authData[53] as int) + authData[54] as int && id <= authData[55..]
  {
    if |authData| >= 55 {
      TwoOctetsRead(authData[53], authData[54]);
      assert authData[53..55] == [authData[53], authData[54]];
      var n := FromBigEndian(authData[53..55]);
      assert n == 0x100 * (authData[53] as int) + authData[54] as int;
      if |authData| >= 55 + n {
        assert authData[55..55 + n] == authData[55..][..n];
        assert |id| == n ==> (id <= authData[55..] <==> id == authData[55..][..n]);
      }
    }
  }

  lemma TwoOctetsRead(a: byte, b: byte)
    ensures FromBigEndian([a, b]) == 0x100 * (a as int) + b as int
  {
    assert [a, b][..1] == [a] && [a][..0] == [];
    assert FromBigEndian([a]) == a as int;
  }

  /** The registered id: that of the first byte string under key 2 that has one, status octet or not. */
  lemma RegisteredIdRead(entries: seq<Entry>, i: nat)
    requires WellFormed(Map(entries)) && i < |entries| && entries[i].key == Int(2) && entries[i].value.Bytes?
    requires AttestedId(entries[i].value.b).Some?
    requires forall j | 0 <= j < i ::
               entries[j].key != Int(2) || !entries[j].value.Bytes? || AttestedId(entries[j].value.b) == None
    ensures RegisteredIdIn(Encode(Map(entries))) == AttestedId(entries[i].value.b)
    ensures RegisteredIdIn([0x00] + Encode(Map(entries))) == AttestedId(entries[i].value.b)
  {
    ResponseReadBack(entries);
    FirstSomeAt(AttestedIdOf, entries, i);
  }

  /** The id of an assertion: the first byte-string "id" of the first key-1 map, status octet or not. */
  lemma AssertionIdRead(entries: seq<Entry>, i: nat, k: nat, id: bytes)
    requires WellFormed(Map(entries)) && i < |entries| && entries[i].key == Int(1) && entries[i].value.Map?
    requires forall j | 0 <= j < i :: entries[j].key != Int(1) || !HasIdBytes(entries[j].value)
    requires var d := entries[i].value.entries;
             && k < |d| && d[k] == Entry(Text(ID), Bytes(id))
             && forall l | 0 <= l < k :: d[l].key != Text(ID) || !d[l].value.Bytes?
    ensures AssertionIdIn(Encode(Map(entries))) == Some(id)
    ensures AssertionIdIn([0x00] + Encode(Map(entries))) == Some(id)
  {
    ResponseReadBack(entries);
    FirstSomeAt(IdBytesOf, entries[i].value.entries, k);
    forall j | 0 <= j < i ensures CredentialIdOf(entries[j]) == None { NoIdBytes(entries[j]); }
    FirstSomeAt(CredentialIdOf, entries, i);
  }

  /** The synthetic answer, written out: descriptor, 37 octets of authenticator data without flags, 64 zero octets. */
  lemma SilentAssertionForm(rpIdHash: bytes, id: bytes)
    ensures SilentAssertion(rpIdHash, Descriptor(Bytes(id), Text(PUBLIC_KEY)))
         == Encode(Map([Entry(Int(1), Map([Entry(Text(ID), Bytes(id)), Entry(Text(TYPE), Text(PUBLIC_KEY))])),
                        Entry(Int(2), Bytes(rpIdHash + [0, 0, 0, 0, 0])),
                        Entry(Int(3), Bytes(seq(64, _ => 0)))]))
  {
    DescriptorForm(Bytes(id), Text(PUBLIC_KEY));
    assert SilentAuthData(rpIdHash) == rpIdHash + [0, 0, 0, 0, 0];
    InOrder(Entry(Int(1), Descriptor(Bytes(id), Text(PUBLIC_KEY))), Entry(Int(2), Bytes(SilentAuthData(rpIdHash))),
            Entry(Int(3), Bytes(DummySignature())));
  }
}
