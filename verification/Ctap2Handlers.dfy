/**
 The functions of src/ctap2.rs as they are written, loop by loop, each proved to compute what
 module Ctap2 defines.
 */
module Ctap2Handlers {
  import opened Bytes
  import opened Folds
  import opened Cbor
  import opened CborOrder
  import opened Ctap2

  // ---------------------------------------------------------------- reading

  method ParseAssertionRequest(raw: bytes) returns (req: AssertionRequest)
    ensures req == RequestIn(raw)
  {
    req := AssertionRequest(NO_ASSERTION_RP, [], true, false, 0, []);
    var body := RequestMap(raw);
    if body.None? { return; }
    var entries := body.value;
    for i := 0 to |entries|
      invariant req == RequestOf(entries[..i])
    {
      Snoc(entries, i);
      RequestStep(entries[..i + 1]);
      req := ReadRequestEntry(entries[i], req);
    }
    assert entries[..|entries|] == entries;
  }

  /** What `e` adds to what the entries before it said. */
  function WithEntry(was: AssertionRequest, e: Entry): AssertionRequest
  {
    AssertionRequest(
      RpIdOf(e).GetOr(was.rpId), HashOf(e).GetOr(was.clientDataHash),
      UpIn(e).GetOr(was.userPresence), UvIn(e).GetOr(was.userVerification),
      AllowLenOf(e).GetOr(was.allowListLen), was.allowList + AllowedIds(e))
  }

  method ReadRequestEntry(e: Entry, was: AssertionRequest) returns (req: AssertionRequest)
    ensures req == WithEntry(was, e)
  {
    req := was;
    if e.key == Int(1) {
      if e.value.Text? { req := req.(rpId := e.value.t); }
    } else if e.key == Int(2) {
      if e.value.Bytes? { req := req.(clientDataHash := e.value.b); }
    } else if e.key == Int(3) {
      if e.value.Array? {
        var ids := CollectIds(e.value.items);
        req := req.(allowListLen := |e.value.items|, allowList := req.allowList + ids);
      }
    } else if e.key == Int(5) {
      if e.value.Map? {
        var up, uv := ReadOptions(e.value.entries, req.userPresence, req.userVerification);
        req := req.(userPresence := up, userVerification := uv);
      }
    }
  }

  lemma RequestStep(entries: seq<Entry>)
    requires entries != []
    ensures RequestOf(entries) == WithEntry(RequestOf(entries[..|entries| - 1]), entries[|entries| - 1])
  {
  }

  /** Pushes the byte-string ids of all descriptors of the list. */
  method CollectIds(list: seq<Value>) returns (ids: seq<bytes>)
    ensures ids == FlatMap(DescriptorIds, list)
  {
    ids := [];
    for i := 0 to |list|
      invariant ids == FlatMap(DescriptorIds, list[..i])
    {
      Snoc(list, i);
      if list[i].Map? {
        var more := CollectDescriptorIds(list[i].entries);
        ids := ids + more;
      }
    }
    assert list[..|list|] == list;
  }

  method CollectDescriptorIds(desc: seq<Entry>) returns (ids: seq<bytes>)
    ensures ids == FlatMap(IdBytesIn, desc)
  {
    ids := [];
    for j := 0 to |desc|
      invariant ids == FlatMap(IdBytesIn, desc[..j])
    {
      Snoc(desc, j);
      if desc[j].key == Text(ID) && desc[j].value.Bytes? {
        ids := ids + [desc[j].value.b];
      }
    }
    assert desc[..|desc|] == desc;
  }

  method ReadOptions(options: seq<Entry>, up0: bool, uv0: bool) returns (up: bool, uv: bool)
    ensures up == LastSome(UpFlag, options).GetOr(up0)
    ensures uv == LastSome(UvFlag, options).GetOr(uv0)
  {
    up, uv := up0, uv0;
    assert UP[1] != UV[1];
    for i := 0 to |options|
      invariant up == LastSome(UpFlag, options[..i]).GetOr(up0)
      invariant uv == LastSome(UvFlag, options[..i]).GetOr(uv0)
    {
      Snoc(options, i);
      if options[i].key == Text(UP) {
        if options[i].value.Bool? { up := options[i].value.truth; }
      } else if options[i].key == Text(UV) {
        if options[i].value.Bool? { uv := options[i].value.truth; }
      }
    }
    assert options[..|options|] == options;
  }

  method ExtractFirstAllowListCredential(raw: bytes) returns (r: Option<(Value, bytes)>)
    ensures match FirstAllowListId(raw)
            case None => r == None
            case Some(id) => r == Some((Descriptor(Bytes(id), Text(PUBLIC_KEY)), id))
  {
    var body := RequestMap(raw);
    if body.None? { return None; }
    var entries := body.value;
    for i := 0 to |entries|
      invariant FirstSome(FirstAllowedId, entries[..i]) == None
    {
      Snoc(entries, i);
      if entries[i].key == Int(3) && entries[i].value.Array? {
        var id := FirstIdInList(entries[i].value.items);
        if id.Some? {
          FirstSomePrefix(FirstAllowedId, entries, i + 1);
          var credMap := SortedVec([Entry(Text(ID), Bytes(id.value)), Entry(Text(TYPE), Text(PUBLIC_KEY))]);
          return Some((Map(credMap), id.value));
        }
      }
    }
    assert entries[..|entries|] == entries;
    return None;
  }

  method FirstIdInList(list: seq<Value>) returns (r: Option<bytes>)
    ensures r == FirstSome(FirstDescriptorId, list)
  {
    for i := 0 to |list|
      invariant FirstSome(FirstDescriptorId, list[..i]) == None
    {
      Snoc(list, i);
      if list[i].Map? {
        r := FirstIdInDescriptor(list[i].entries);
        if r.Some? {
          FirstSomePrefix(FirstDescriptorId, list, i + 1);
          return;
        }
      }
    }
    assert list[..|list|] == list;
    return None;
  }

  method FirstIdInDescriptor(desc: seq<Entry>) returns (r: Option<bytes>)
    ensures r == FirstSome(IdBytesOf, desc)
  {
    for i := 0 to |desc|
      invariant FirstSome(IdBytesOf, desc[..i]) == None
    {
      Snoc(desc, i);
      if desc[i].key == Text(ID) && desc[i].value.Bytes? {
        FirstSomePrefix(IdBytesOf, desc, i + 1);
        return Some(desc[i].value.b);
      }
    }
    assert desc[..|desc|] == desc;
    return None;
  }

  method ExtractAssertionCredentialId(raw: bytes) returns (r: Option<bytes>)
    ensures r == AssertionIdIn(raw)
  {
    var body := ResponseMap(raw);
    if body.None? { return None; }
    var entries := body.value;
    for i := 0 to |entries|
      invariant FirstSome(CredentialIdOf, entries[..i]) == None
    {
      Snoc(entries, i);
      if entries[i].key == Int(1) && entries[i].value.Map? {
        r := FirstIdInDescriptor(entries[i].value.entries);
        if r.Some? {
          FirstSomePrefix(CredentialIdOf, entries, i + 1);
          return;
        }
      }
    }
    assert entries[..|entries|] == entries;
    return None;
  }

  method ExtractMakeCredentialRpId(raw: bytes) returns (rpId: bytes)
    ensures rpId == RegistrationRpIn(raw)
  {
    var body := RequestMap(raw);
    if body.None? { return NO_REGISTRATION_RP; }
    var entries := body.value;
    for i := 0 to |entries|
      invariant FirstSome(RpNamedBy, entries[..i]) == None
    {
      Snoc(entries, i);
      if entries[i].key == Int(2) && entries[i].value.Map? {
        var foundId, foundName := FindRpNames(entries[i].value.entries);
        if foundId.Some? || foundName.Some? {
          FirstSomePrefix(RpNamedBy, entries, i + 1);
          return if foundId.Some? then foundId.value else foundName.value;
        }
      }
    }
    assert entries[..|entries|] == entries;
    return NO_REGISTRATION_RP;
  }

  method FindRpNames(rp: seq<Entry>) returns (foundId: Option<bytes>, foundName: Option<bytes>)
    ensures foundId == LastSome(NonEmptyIdOf, rp) && foundName == LastSome(NonEmptyNameOf, rp)
  {
    foundId, foundName := None, None;
    for i := 0 to |rp|
      invariant foundId == LastSome(NonEmptyIdOf, rp[..i]) && foundName == LastSome(NonEmptyNameOf, rp[..i])
    {
      Snoc(rp, i);
      if rp[i].key == Text(ID) {
        if rp[i].value.Text? && rp[i].value.t != [] { foundId := Some(rp[i].value.t); }
      } else if rp[i].key == Text(NAME) {
        if rp[i].value.Text? && rp[i].value.t != [] { foundName := Some(rp[i].value.t); }
      }
    }
    assert rp[..|rp|] == rp;
  }

  method ExtractMakeCredentialId(raw: bytes) returns (r: Option<bytes>)
    ensures r == RegisteredIdIn(raw)
  {
    var body := ResponseMap(raw);
    if body.None? { return None; }
    var entries := body.value;
    for i := 0 to |entries|
      invariant FirstSome(AttestedIdOf, entries[..i]) == None
    {
      Snoc(entries, i);
      if entries[i].key == Int(2) && entries[i].value.Bytes? {
        r := ReadAttestedId(entries[i].value.b);
        if r.Some? {
          FirstSomePrefix(AttestedIdOf, entries, i + 1);
          return;
        }
      }
    }
    assert entries[..|entries|] == entries;
    return None;
  }

  method ReadAttestedId(authData: bytes) returns (r: Option<bytes>)
    ensures r == AttestedId(authData)
  {
    if |authData| >= 55 && authData[32] / 64 % 2 == 1 {
      var credLen := FromBigEndian(authData[53..55]);
      if credLen > 0 && |authData| >= 55 + credLen {
        return Some(authData[55..55 + credLen]);
      }
    }
    return None;
  }

  method BuildSilentAssertionResponse(rpIdHash: bytes, credDescriptor: Value) returns (out: bytes)
    ensures out == SilentAssertion(rpIdHash, credDescriptor)
  {
    var body := SortedVec([Entry(Int(1), credDescriptor),
                           Entry(Int(2), Bytes(SilentAuthData(rpIdHash))),
                           Entry(Int(3), Bytes(DummySignature()))]);
    out := Encode(Map(body));
  }

  // ---------------------------------------------------------------- rewriting

  method SanitizeCredentialDescriptor(desc: Value) returns (r: Option<Value>)
    ensures r == SanitizeDescriptor(desc)
  {
    if !desc.Map? { return None; }
    var entries := desc.entries;
    var idVal, typeVal := None, None;
    for i := 0 to |entries|
      invariant idVal == LastSome(IdValueOf, entries[..i]) && typeVal == LastSome(TypeValueOf, entries[..i])
    {
      Snoc(entries, i);
      if entries[i].key == Text(ID) {
        idVal := Some(entries[i].value);
      } else if entries[i].key == Text(TYPE) {
        typeVal := Some(entries[i].value);
      }
    }
    assert entries[..|entries|] == entries;
    if idVal.None? { return None; }
    var sanitized := SortedVec([Entry(Text(ID), idVal.value),
                                Entry(Text(TYPE), typeVal.GetOr(Text(PUBLIC_KEY)))]);
    return Some(Map(sanitized));
  }

  /** allowList and excludeList alike: the entry to push, if any descriptor remains. */
  method SanitizeDescriptorList(key: Value, v: Value) returns (pushed: seq<Entry>)
    ensures pushed == SanitizeList(key, v)
  {
    if !v.Array? { return []; }
    var list := v.items;
    var sanitizedList := [];
    for i := 0 to |list|
      invariant sanitizedList == FlatMap(SanitizedItem, list[..i])
    {
      Snoc(list, i);
      var desc := SanitizeCredentialDescriptor(list[i]);
      if desc.Some? {
        sanitizedList := sanitizedList + [desc.value];
      }
    }
    assert list[..|list|] == list;
    return if sanitizedList != [] then [Entry(key, Array(sanitizedList))] else [];
  }

  method PrepareGetAssertionForCable(raw: bytes) returns (payload: bytes)
    ensures payload == GaPayload(raw)
  {
    var body := RequestMap(raw);
    if body.None? { return raw; }
    var entries := body.value;
    var newEntries: seq<Entry>, uvRequested := [], true;
    for i := 0 to |entries|
      invariant newEntries == FlatMap(GaRewrite, entries[..i])
      invariant uvRequested == LastSome(UvIn, entries[..i]).GetOr(true)
    {
      Snoc(entries, i);
      var e := entries[i];
      if e.key == Int(1) || e.key == Int(2) {
        newEntries := newEntries + [e];
      } else if e.key == Int(3) {
        var pushed := SanitizeDescriptorList(e.key, e.value);
        newEntries := newEntries + pushed;
      } else if e.key == Int(5) {
        if e.value.Map? {
          uvRequested := LastUv(e.value.entries, uvRequested);
        }
      }
    }
    assert entries[..|entries|] == entries;
    var opts := SortedVec([Entry(Text(UP), Bool(true)), Entry(Text(UV), Bool(uvRequested))]);
    newEntries := SortedVec(newEntries + [Entry(Int(5), Map(opts))]);
    payload := [raw[0]] + Encode(Map(newEntries));
  }

  method LastUv(opts: seq<Entry>, uv0: bool) returns (uv: bool)
    ensures uv == LastSome(UvFlag, opts).GetOr(uv0)
  {
    uv := uv0;
    for i := 0 to |opts|
      invariant uv == LastSome(UvFlag, opts[..i]).GetOr(uv0)
    {
      Snoc(opts, i);
      if opts[i].value.Bool? && opts[i].key == Text(UV) { uv := opts[i].value.truth; }
    }
    assert opts[..|opts|] == opts;
  }

  method NormalizeRp(v: Value) returns (cleanRp: seq<Entry>)
    ensures cleanRp == CleanRp(EntriesOf(v))
  {
    var rp := if v.Map? then v.entries else [];
    var idVal, nameVal, otherRp: seq<Entry> := None, None, [];
    for i := 0 to |rp|
      invariant idVal == LastSome(IdValueOf, rp[..i]) && nameVal == LastSome(NameValueOf, rp[..i])
      invariant otherRp == FlatMap(RpOther, rp[..i])
    {
      Snoc(rp, i);
      if rp[i].key == Text(ID) {
        idVal := Some(rp[i].value);
      } else if rp[i].key == Text(NAME) {
        nameVal := Some(rp[i].value);
      } else {
        otherRp := otherRp + [rp[i]];
      }
    }
    assert rp[..|rp|] == rp;
    var nameText := NonEmptyText(nameVal);
    var idStr := if NonEmptyText(idVal).Some? then NonEmptyText(idVal).value
                 else if nameText.Some? then nameText.value else WEBAUTHN;
    var nameStr := if nameText.Some? then nameText.value else idStr;
    cleanRp := SortedVec([Entry(Text(ID), Text(idStr)), Entry(Text(NAME), Text(nameStr))] + otherRp);
  }

  method NormalizeUser(v: Value) returns (cleanUser: seq<Entry>)
    ensures cleanUser == CleanUser(EntriesOf(v))
  {
    var user := if v.Map? then v.entries else [];
    var idVal, nameVal, displayNameVal, otherUser: seq<Entry> := None, None, None, [];
    for i := 0 to |user|
      invariant idVal == LastSome(IdValueOf, user[..i]) && nameVal == LastSome(NameValueOf, user[..i])
      invariant displayNameVal == LastSome(DisplayNameValueOf, user[..i])
      invariant otherUser == FlatMap(UserOther, user[..i])
    {
      Snoc(user, i);
      if user[i].key == Text(ID) {
        idVal := Some(user[i].value);
      } else if user[i].key == Text(NAME) {
        nameVal := Some(user[i].value);
      } else if user[i].key == Text(DISPLAY_NAME) {
        displayNameVal := Some(user[i].value);
      } else {
        otherUser := otherUser + [user[i]];
      }
    }
    assert user[..|user|] == user;
    var displayText := NonEmptyText(displayNameVal);
    var finalName := if NonEmptyText(nameVal).Some? then NonEmptyText(nameVal).value
                     else if displayText.Some? then displayText.value else USER;
    var finalDisplayName := if displayText.Some? then displayText.value else finalName;
    var finalId := idVal.GetOr(Bytes(finalName));
    cleanUser := SortedVec([Entry(Text(ID), finalId), Entry(Text(NAME), Text(finalName)),
                            Entry(Text(DISPLAY_NAME), Text(finalDisplayName))] + otherUser);
  }

  method HasEs256(v: Value) returns (hasEs256: bool)
    ensures hasEs256 == OffersEs256(v)
  {
    hasEs256 := false;
    if v.Array? {
      for i := 0 to |v.items|
        invariant hasEs256 <==> exists p | p in v.items[..i] :: p.Map? && ES256_FIELD in p.entries
      {
        assert v.items[..i + 1] == v.items[..i] + [v.items[i]];
        var p := v.items[i];
        if p.Map? {
          for j := 0 to |p.entries|
            invariant ES256_FIELD !in p.entries[..j]
          {
            if p.entries[j].key == Text(ALG) && p.entries[j].value == Int(-7) {
              hasEs256 := true;
              break;
            }
          }
          assert p.entries[..|p.entries|] == p.entries;
        }
      }
      assert v.items[..|v.items|] == v.items;
    }
  }

  lemma HasKeyNext(key: Value, s: seq<Entry>, i: nat)
    requires i < |s|
    ensures HasKey(key, s[..i + 1]) <==> HasKey(key, s[..i]) || s[i].key == key
  {
    assert s[..i + 1] == s[..i] + [s[i]];
    if HasKey(key, s[..i]) {
      var e :| e in s[..i] && e.key == key;
      assert e in s[..i + 1];
    }
  }

  method PrepareMakeCredentialForCable(raw: bytes) returns (payload: bytes)
    ensures payload == McPayload(raw)
  {
    var body := RequestMap(raw);
    if body.None? { return raw; }
    var entries := body.value;
    var newEntries: seq<Entry>, optionsFound := [], false;
    for i := 0 to |entries|
      invariant newEntries == FlatMap(McRewrite, entries[..i])
      invariant optionsFound <==> HasKey(Int(7), entries[..i])
    {
      Snoc(entries, i);
      HasKeyNext(Int(7), entries, i);
      var pushed := RewriteMakeCredentialEntry(entries[i]);
      newEntries := newEntries + pushed;
      if entries[i].key == Int(7) { optionsFound := true; }
    }
    assert entries[..|entries|] == entries;
    if !optionsFound {
      var opts := SortedVec([Entry(Text(RK), Bool(true)), Entry(Text(UV), Bool(true))]);
      newEntries := newEntries + [Entry(Int(7), Map(opts))];
    }
    assert newEntries == FlatMap(McRewrite, entries) + McInjected(entries);
    newEntries := SortedVec(newEntries);
    payload := [raw[0]] + Encode(Map(newEntries));
  }

  /** One round of the loop: what is pushed for this entry. */
  method RewriteMakeCredentialEntry(e: Entry) returns (pushed: seq<Entry>)
    ensures pushed == McRewrite(e)
  {
    if !e.key.Int? { return []; }
    if e.key.i == 1 {
      pushed := [e];
    } else if e.key.i == 2 {
      var cleanRp := NormalizeRp(e.value);
      pushed := [Entry(e.key, Map(cleanRp))];
    } else if e.key.i == 3 {
      var cleanUser := NormalizeUser(e.value);
      pushed := [Entry(e.key, Map(cleanUser))];
    } else if e.key.i == 4 {
      var hasEs256 := HasEs256(e.value);
      if hasEs256 {
        var es256 := SortedVec([ES256_FIELD, Entry(Text(TYPE), Text(PUBLIC_KEY))]);
        pushed := [Entry(e.key, Array([Map(es256)]))];
      } else {
        pushed := [e];
      }
    } else if e.key.i == 5 {
      pushed := SanitizeDescriptorList(e.key, e.value);
    } else if e.key.i == 7 {
      var opts := SortedVec([Entry(Text(RK), Bool(true)), Entry(Text(UV), Bool(true))]);
      pushed := [Entry(e.key, Map(opts))];
    } else {
      pushed := [];
    }
  }
}
