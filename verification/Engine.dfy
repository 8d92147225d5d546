/**
 The bridge engine of src/engine.rs: cancellation cooldown, the single-use assertion cache, and
 the decision what to do with each CBOR request. Instants are milliseconds; SHA-256 is a
 parameter.
 */
module Engine {
  import opened Bytes
  import opened Folds
  import opened Cbor
  import opened Ctap2
  import opened CtapHid
  import opened Ctap2Wire
  import opened Ctap2Meaning
  import opened Ctap2RelyingParty
  import Ctap2Handlers

  const COOLDOWN: nat := 5000
  const CACHE_TTL: nat := 10000

  datatype CachedAssertion = CachedAssertion(
    rpId: bytes,
    clientDataHash: bytes,
    credentialId: Option<bytes>,
    response: bytes,
    createdAt: nat)

  datatype RequestType = GetAssertion | DiscoverableMakeCredential

  datatype Action =
    | SendStatus(status: byte)
    | SendResponse(response: bytes)
    | StartCableTransaction(reqType: RequestType, rpId: bytes, cablePayload: bytes)
    | Ignore

  datatype TransactionResult = Success(response: bytes) | UserCancelled | HostCancelled | HostReset | Failed

  datatype State = State(
    lastCancelled: Option<nat>,
    assertionCache: Option<CachedAssertion>,
    pendingClientDataHash: bytes)

  const INITIAL := State(None, None, [])

  type Hash = bytes -> bytes

  ghost predicate IsSha256(sha: Hash) { forall x :: |sha(x)| == 32 }

  /** What the engine is given: SHA-256 and the fixed answer to GetInfo. */
  datatype Platform = Platform(sha: Hash, getInfo: bytes)

  predicate InCooldown(s: State, now: nat)
  {
    s.lastCancelled.Some? && Elapsed(s.lastCancelled.value, now) < COOLDOWN
  }

  /** A cached assertion answers a request that asks for the same thing, soon enough. */
  predicate Matches(c: CachedAssertion, req: AssertionRequest, now: nat)
  {
    && Elapsed(c.createdAt, now) <= CACHE_TTL
    && c.rpId == req.rpId
    && (c.clientDataHash != [] && req.clientDataHash != [] ==> c.clientDataHash == req.clientDataHash)
    && (req.allowList != [] && c.credentialId.Some? ==> c.credentialId.value in req.allowList)
  }

  /** A probe without user presence that is settled without asking the cache. */
  predicate SettledSilently(data: bytes)
  {
    var req := RequestIn(data);
    !req.userPresence && (req.allowListLen == 0 || FirstAllowListId(data).Some?)
  }

  /** The requests the cache answers. */
  predicate AnsweredFromCache(s: State, data: bytes, now: nat)
  {
    && data != [] && data[0] == CMD_GET_ASSERTION && !InCooldown(s, now) && !SettledSilently(data)
    && s.assertionCache.Some? && Matches(s.assertionCache.value, RequestIn(data), now)
  }

  /** What is done with a GetAssertion request outside cooldown. */
  function AnswerAssertion(s: State, data: bytes, now: nat, env: Platform): (State, Action)
  {
    var req := RequestIn(data);
    var s' := s.(pendingClientDataHash := req.clientDataHash);
    if !req.userPresence && req.allowListLen == 0 then (s', SendStatus(ERR_NO_CREDENTIALS))
    else if !req.userPresence && FirstAllowListId(data).Some? then
      (s', SendResponse(SilentAssertion(env.sha(req.rpId),
                                       Descriptor(Bytes(FirstAllowListId(data).value), Text(PUBLIC_KEY)))))
    else if s.assertionCache.Some? && Matches(s.assertionCache.value, req, now) then
      (s'.(assertionCache := None), SendResponse(s.assertionCache.value.response))
    else (s', StartCableTransaction(GetAssertion, req.rpId, GaPayload(data)))
  }

  function HandleCbor(s: State, data: bytes, now: nat, env: Platform): (State, Action)
  {
    if data == [] then (s, Ignore)
    else if data[0] == CMD_GET_INFO then (s, SendResponse(env.getInfo))
    else if data[0] == CMD_GET_ASSERTION then
      if InCooldown(s, now) then (s, SendStatus(ERR_KEEPALIVE_CANCEL)) else AnswerAssertion(s, data, now, env)
    else if data[0] == CMD_MAKE_CREDENTIAL then
      if InCooldown(s, now) then (s, SendStatus(ERR_KEEPALIVE_CANCEL))
      else if DummyRp(RegistrationRpIn(McPayload(data))) then (s, SendStatus(ERR_OPERATION_DENIED))
      else (s, StartCableTransaction(DiscoverableMakeCredential, RegistrationRpIn(McPayload(data)), McPayload(data)))
    else (s, SendStatus(ERR_UNSUPPORTED_OPTION))
  }

  /** The end of a transaction; None means that nothing is sent (the host re-initialised the channel). */
  function HandleOutcome(s: State, reqType: RequestType, rpId: bytes,
                         result: TransactionResult, now: nat): (State, Option<Action>)
  {
    match result
    case Success(response) =>
      if reqType == GetAssertion then
        (s.(assertionCache := Some(CachedAssertion(rpId, s.pendingClientDataHash,
                                                   AssertionIdIn(response), response, now)),
            pendingClientDataHash := []),
         Some(SendResponse(response)))
      else (s, Some(SendResponse(response)))
    case HostReset => (s.(lastCancelled := Some(now)), None)
    case _ => (s.(lastCancelled := Some(now)), Some(SendStatus(ERR_KEEPALIVE_CANCEL)))
  }

  // ---------------------------------------------------------------- the engine object

  class BridgeEngine {
    var lastCancelled: Option<nat>
    var assertionCache: Option<CachedAssertion>
    var pendingClientDataHash: bytes

    function Abstract(): State
      reads this
    {
      State(lastCancelled, assertionCache, pendingClientDataHash)
    }

    constructor ()
      ensures Abstract() == INITIAL
    {
      lastCancelled := None;
      assertionCache := None;
      pendingClientDataHash := [];
    }

    predicate IsInCooldown(now: nat)
      reads this
      ensures IsInCooldown(now) == InCooldown(Abstract(), now)
    {
      match lastCancelled
      case Some(cancelledAt) => Elapsed(cancelledAt, now) < COOLDOWN
      case None => false
    }

    method RecordCancellation(now: nat)
      modifies this`lastCancelled
      ensures lastCancelled == Some(now)
    {
      lastCancelled := Some(now);
    }

    method HandleCborRequest(data: bytes, now: nat, env: Platform) returns (action: Action)
      modifies this
      ensures (Abstract(), action) == HandleCbor(old(Abstract()), data, now, env)
    {
      if data == [] { return Ignore; }
      if data[0] == CMD_GET_INFO {
        return SendResponse(env.getInfo);
      } else if data[0] == CMD_GET_ASSERTION {
        if IsInCooldown(now) { return SendStatus(ERR_KEEPALIVE_CANCEL); }
        action := HandleGetAssertion(data, now, env);
      } else if data[0] == CMD_MAKE_CREDENTIAL {
        if IsInCooldown(now) { return SendStatus(ERR_KEEPALIVE_CANCEL); }
        var cablePayload := Ctap2Handlers.PrepareMakeCredentialForCable(data);
        var rpId := Ctap2Handlers.ExtractMakeCredentialRpId(cablePayload);
        if DummyRp(rpId) { return SendStatus(ERR_OPERATION_DENIED); }
        return StartCableTransaction(DiscoverableMakeCredential, rpId, cablePayload);
      } else {
        return SendStatus(ERR_UNSUPPORTED_OPTION);
      }
    }

    method HandleGetAssertion(data: bytes, now: nat, env: Platform) returns (action: Action)
      modifies this`assertionCache, this`pendingClientDataHash
      ensures (Abstract(), action) == AnswerAssertion(old(Abstract()), data, now, env)
    {
      var req := Ctap2Handlers.ParseAssertionRequest(data);
      pendingClientDataHash := req.clientDataHash;
      if !req.userPresence {
        if req.allowListLen == 0 { return SendStatus(ERR_NO_CREDENTIALS); }
        var found := Ctap2Handlers.ExtractFirstAllowListCredential(data);
        if found.Some? {
          var response := Ctap2Handlers.BuildSilentAssertionResponse(env.sha(req.rpId), found.value.0);
          return SendResponse(response);
        }
      }
      if assertionCache.Some? {
        var cached := assertionCache.value;
        assertionCache := None;
        if Matches(cached, req, now) { return SendResponse(cached.response); }
        assertionCache := Some(cached);
      }
      var cablePayload := Ctap2Handlers.PrepareGetAssertionForCable(data);
      return StartCableTransaction(GetAssertion, req.rpId, cablePayload);
    }

    method HandleTransactionOutcome(reqType: RequestType, rpId: bytes, result: TransactionResult, now: nat)
      returns (action: Option<Action>)
      modifies this
      ensures (Abstract(), action) == HandleOutcome(old(Abstract()), reqType, rpId, result, now)
    {
      match result
      case Success(response) =>
        if reqType == GetAssertion {
          var credId := Ctap2Handlers.ExtractAssertionCredentialId(response);
          var hash := pendingClientDataHash;
          pendingClientDataHash := [];
          assertionCache := Some(CachedAssertion(rpId, hash, credId, response, now));
        }
        return Some(SendResponse(response));
      case UserCancelled =>
        RecordCancellation(now);
        return Some(SendStatus(ERR_KEEPALIVE_CANCEL));
      case HostCancelled =>
        RecordCancellation(now);
        return Some(SendStatus(ERR_KEEPALIVE_CANCEL));
      case HostReset =>
        RecordCancellation(now);
        return None;
      case Failed =>
        RecordCancellation(now);
        return Some(SendStatus(ERR_KEEPALIVE_CANCEL));
    }
  }

  // ---------------------------------------------------------------- single requests

  /**
   A silent probe outside cooldown that lists credentials: unless its last allow list is empty, the
   answer is at once the first credential it lists, whatever the cache holds.
   */
  lemma SilentProbe(s: State, data: bytes, now: nat, env: Platform)
    requires IsSha256(env.sha) && IsSlice(data) && data != [] && data[0] == CMD_GET_ASSERTION && !InCooldown(s, now)
    requires !RequestIn(data).userPresence && RequestIn(data).allowList != []
    ensures var (s', action) := HandleCbor(s, data, now, env);
            var id := RequestIn(data).allowList[0];
            && s'.assertionCache == s.assertionCache && s'.lastCancelled == s.lastCancelled
            && (if RequestIn(data).allowListLen == 0 then action == SendStatus(0x2E)
                else && action.SendResponse?
                     && AssertionIdIn(action.response) == Some(id)
                     && AssertionIdIn([CTAP2_OK] + action.response) == Some(id)
                     && |action.response| == 130 + ArgWidth(|id|) + |id|)
  {
    FirstAllowListIdIsHead(data);
    var id := FirstAllowListId(data).value;
    AllowedIdFits(data, id);
    SilentAssertionNames(env.sha(RequestIn(data).rpId), id);
    SilentAssertionSize(env.sha(RequestIn(data).rpId), id);
  }

  /** A silent probe whose last allow list is empty, or missing, is told so, whatever else it lists. */
  lemma EmptyProbe(s: State, data: bytes, now: nat, env: Platform)
    requires data != [] && data[0] == 0x02 && !InCooldown(s, now)
    requires !RequestIn(data).userPresence && RequestIn(data).allowListLen == 0
    ensures HandleCbor(s, data, now, env).1 == SendStatus(0x2E)
  {
  }

  /** Any other request that the cache does not answer goes to the phone, sanitised. */
  lemma AssertionAsked(s: State, data: bytes, now: nat, env: Platform)
    requires data != [] && data[0] == 0x02 && !InCooldown(s, now)
    requires var req := RequestIn(data); req.userPresence || (req.allowListLen != 0 && req.allowList == [])
    requires s.assertionCache.None? || !Matches(s.assertionCache.value, RequestIn(data), now)
    ensures HandleCbor(s, data, now, env).1
         == StartCableTransaction(GetAssertion, RequestIn(data).rpId, GaPayload(data))
  {
    FirstAllowListIdIsHead(data);
  }

  const LISTED := Map([Entry(Text(ID), Bytes([7]))])
  const FULL_LIST := Entry(Int(3), Array([LISTED]))
  const EMPTY_LIST := Entry(Int(3), Array([]))
  const NO_PRESENCE := Entry(Int(5), Map([Entry(Text(UP), Bool(false))]))

  lemma EmptyLastListWellFormed()
    ensures WellFormed(Map([FULL_LIST, EMPTY_LIST, NO_PRESENCE]))
  {
    FieldNamesWellFormed();
    SingletonWellFormed(Text(ID), Bytes([7]));
    SingletonWellFormed(Text(ID), LISTED);
    SingletonWellFormed(Text(UP), Bool(false));
    TripleWellFormed(FULL_LIST, EMPTY_LIST, NO_PRESENCE);
  }

  lemma EmptyLastListReads()
    ensures var req := RequestOf([FULL_LIST, EMPTY_LIST, NO_PRESENCE]);
            !req.userPresence && req.allowList == [[7]] && req.allowListLen == 0
  {
    FlatMapOne(IdBytesIn, Entry(Text(ID), Bytes([7])));
    FlatMapOne(DescriptorIds, LISTED);
    FoldThree(AllowLenOf, AllowedIds, FULL_LIST, EMPTY_LIST, NO_PRESENCE);
    FoldThree(UpIn, AllowedIds, FULL_LIST, EMPTY_LIST, NO_PRESENCE);
    LastSomeOne(UpFlag, Entry(Text(UP), Bool(false)));
  }

  /**
   The condition matters: a request with two allow lists, the second of them empty, lists a
   credential, yet its silent probe is told that there is none.
   */
  lemma SilentProbeUnanswered(s: State, now: nat, env: Platform)
    requires !InCooldown(s, now)
    ensures var data := [CMD_GET_ASSERTION] + Encode(Map([FULL_LIST, EMPTY_LIST, NO_PRESENCE]));
            && !RequestIn(data).userPresence && RequestIn(data).allowList == [[7]]
            && HandleCbor(s, data, now, env).1 == SendStatus(0x2E)
  {
    EmptyLastListWellFormed();
    ReadBack(CMD_GET_ASSERTION, [FULL_LIST, EMPTY_LIST, NO_PRESENCE]);
    EmptyLastListReads();
  }

  /** A silent probe that lists one credential. */
  function Listing(id: bytes): Value { Map([Entry(Text(ID), Bytes(id))]) }

  function ListOf(id: bytes): Entry { Entry(Int(3), Array([Listing(id)])) }

  function ProbeFor(id: bytes): bytes { [CMD_GET_ASSERTION] + Encode(Map([ListOf(id), NO_PRESENCE])) }

  lemma ProbeReads(id: bytes)
    ensures var req := RequestOf([ListOf(id), NO_PRESENCE]);
            !req.userPresence && req.allowList == [id] && req.allowListLen == 1
  {
    FlatMapOne(IdBytesIn, Entry(Text(ID), Bytes(id)));
    FlatMapOne(DescriptorIds, Listing(id));
    FlatMapTwo(AllowedIds, ListOf(id), NO_PRESENCE);
    LastSomeTwo(AllowLenOf, ListOf(id), NO_PRESENCE);
    LastSomeTwo(UpIn, ListOf(id), NO_PRESENCE);
    LastSomeOne(UpFlag, Entry(Text(UP), Bool(false)));
  }

  lemma ProbeWellFormed(id: bytes)
    requires |id| <= MAX_ARG
    ensures WellFormed(Map([ListOf(id), NO_PRESENCE]))
  {
    FieldNamesWellFormed();
    SingletonWellFormed(Text(ID), Bytes(id));
    SingletonWellFormed(Text(ID), Listing(id));
    SingletonWellFormed(Text(UP), Bool(false));
    PairWellFormed(Int(3), ListOf(id).value, Int(5), NO_PRESENCE.value);
  }

  lemma ProbeSize(id: bytes)
    ensures |ProbeFor(id)| == 15 + ArgWidth(|id|) + |id|
  {
    var idEntry, upEntry := Entry(Text(ID), Bytes(id)), Entry(Text(UP), Bool(false));
    SmallSize(ListOf(id), NO_PRESENCE, Listing(id));
    SmallSize(idEntry, idEntry, Null);
    SmallSize(upEntry, upEntry, Null);
    EntrySize(Int(3), ListOf(id).value);
    EntrySize(Int(5), NO_PRESENCE.value);
    EntrySize(Text(ID), Bytes(id));
    EntrySize(Text(UP), Bool(false));
    BytesSize(id);
    StringSize(ID);
    StringSize(UP);
    SmallInt(3);
    SmallInt(5);
  }

  /** The octets of such a probe and what they say. */
  lemma ProbeRequest(id: bytes)
    requires |id| <= MAX_ARG
    ensures var req := RequestIn(ProbeFor(id));
            !req.userPresence && req.allowList == [id] && req.allowListLen == 1
    ensures |ProbeFor(id)| == 15 + ArgWidth(|id|) + |id|
  {
    ProbeWellFormed(id);
    ReadBack(CMD_GET_ASSERTION, [ListOf(id), NO_PRESENCE]);
    ProbeReads(id);
    ProbeSize(id);
  }

  /**
   Outside cooldown exactly the registrations that are forwarded for a dummy relying party are
   denied, and all others start a transaction. Those are the registrations for a dummy relying party
   of their own if the last "id" of the first rp map is a non-empty text, or if no key is repeated.
   */
  lemma DeniesDummies(s: State, data: bytes, now: nat, env: Platform)
    requires IsSlice(data) && data != [] && data[0] == CMD_MAKE_CREDENTIAL && !InCooldown(s, now)
    ensures HandleCbor(s, data, now, env).1
         == if DummyRp(ForwardedRp(data)) then SendStatus(0x27)
            else StartCableTransaction(DiscoverableMakeCredential, ForwardedRp(data), McPayload(data))
    ensures NamesById(RequestMap(data).GetOr([])) || DistinctRequest(data) ==>
              (DummyRp(ForwardedRp(data)) <==> DummyRp(RegistrationRpIn(data)))
  {
    DummyDecision(data);
  }

  const DUMMY := Ascii(".dummy")
  const DUMMY_ID := Entry(Text(ID), Text(DUMMY))
  const LATER_ID := Entry(Text(ID), Int(5))
  const SHADOWED_RP := Entry(Int(2), Map([DUMMY_ID, LATER_ID]))

  lemma ShadowedRpReads()
    ensures RpNamedBy(SHADOWED_RP) == Some(DUMMY)
    ensures NormalizedRp(SHADOWED_RP) == Some(WEBAUTHN)
  {
    LastSomeTwo(NonEmptyIdOf, DUMMY_ID, LATER_ID);
    LastSomeTwo(IdValueOf, DUMMY_ID, LATER_ID);
    LastSomeTwo(NameValueOf, DUMMY_ID, LATER_ID);
    assert |DUMMY| == 6;
  }

  lemma ShadowedRpWellFormed()
    ensures WellFormed(Map([SHADOWED_RP]))
  {
    FieldNamesWellFormed();
    AsciiText(".dummy");
    var rp := Map([DUMMY_ID, LATER_ID]);
    assert forall e | e in rp.entries :: WellFormed(e.key) && WellFormed(e.value);
    assert WellFormed(rp);
    SingletonWellFormed(Int(2), rp);
  }

  /** The condition matters: a request whose rp map has the id ".dummy" and then another id starts a transaction. */
  lemma ShadowedDummyStarts(s: State, now: nat, env: Platform)
    requires !InCooldown(s, now)
    ensures var data := [CMD_MAKE_CREDENTIAL] + Encode(Map([SHADOWED_RP]));
            && RegistrationRpIn(data) == DUMMY && DummyRp(DUMMY)
            && ForwardedRp(data) == WEBAUTHN && HandleCbor(s, data, now, env).1.StartCableTransaction?
  {
    ShadowedRpReads();
    ShadowedRpWellFormed();
    ReadBack(CMD_MAKE_CREDENTIAL, [SHADOWED_RP]);
    FirstSomeOne(RpNamedBy, SHADOWED_RP);
    FirstSomeOne(NormalizedRp, SHADOWED_RP);
    ShortRequest();
    DeniesDummies(s, [CMD_MAKE_CREDENTIAL] + Encode(Map([SHADOWED_RP])), now, env);
    NotDummies();
  }

  lemma ShortRequest()
    ensures IsSlice([CMD_MAKE_CREDENTIAL] + Encode(Map([SHADOWED_RP])))
  {
    var rp := Map([DUMMY_ID, LATER_ID]);
    SmallSize(SHADOWED_RP, SHADOWED_RP, Null);
    SmallSize(DUMMY_ID, LATER_ID, Null);
    EntrySize(Int(2), rp);
    EntrySize(Text(ID), Text(DUMMY));
    EntrySize(Text(ID), Int(5));
    StringSize(ID);
    StringSize(DUMMY);
    assert |Encode(Int(2))| == 1 && |Encode(Int(5))| == 1;
  }
}
