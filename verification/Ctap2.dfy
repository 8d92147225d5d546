/**
 What src/ctap2.rs computes from a CTAP2 request or response: reading the fields of a
 GetAssertion or MakeCredential message and rewriting it for the caBLE tunnel. A message is a
 command (or status) octet followed by one CBOR item.
 */
module Ctap2 {
  import opened Bytes
  import opened Folds
  import opened Cbor
  import opened CborOrder

  const CMD_MAKE_CREDENTIAL: byte := 0x01
  const CMD_GET_ASSERTION: byte := 0x02
  const CMD_GET_INFO: byte := 0x04
  const CTAP2_OK: byte := 0x00
  const ERR_OPERATION_DENIED: byte := 0x27
  const ERR_UNSUPPORTED_OPTION: byte := 0x2B
  const ERR_KEEPALIVE_CANCEL: byte := 0x2D
  const ERR_NO_CREDENTIALS: byte := 0x2E

  /** The octets of an ASCII literal. */
  function Ascii(s: string): (r: bytes)
    ensures |r| == |s| && forall i | 0 <= i < |s| :: r[i] == s[i] as int % 128
  {
    seq(|s|, i requires 0 <= i < |s| => s[i] as int % 128)
  }

  lemma AsciiText(s: string)
    ensures ValidUtf8(Ascii(s))
  {
    AsciiIsUtf8(Ascii(s));
  }

  const ID := Ascii("id")
  const TYPE := Ascii("type")
  const NAME := Ascii("name")
  const DISPLAY_NAME := Ascii("displayName")
  const ALG := Ascii("alg")
  const UP := Ascii("up")
  const UV := Ascii("uv")
  const RK := Ascii("rk")
  const PUBLIC_KEY := Ascii("public-key")
  const WEBAUTHN := Ascii("webauthn")
  const USER := Ascii("user")
  const NO_ASSERTION_RP := Ascii("Passkey Authentication")
  const NO_REGISTRATION_RP := Ascii("Passkey Registration")

  /** A slice of the source's platform: no longer than isize::MAX octets. */
  predicate IsSlice(raw: bytes) { |raw| <= 0x7FFF_FFFF_FFFF_FFFF }

  /** The entries of `s` read as one CBOR map; what follows the map is ignored. */
  function MapIn(s: bytes): Option<seq<Entry>>
  {
    match Decode(s)
    case Ok(Map(entries), _) => Some(entries)
    case _ => None
  }

  /** The map after the command octet. */
  function RequestMap(raw: bytes): Option<seq<Entry>>
  {
    if |raw| <= 1 then None else MapIn(raw[1..])
  }

  /** The map of a response, with or without its leading status octet. */
  function ResponseMap(raw: bytes): Option<seq<Entry>>
  {
    if raw != [] && raw[0] == CTAP2_OK then MapIn(raw[1..]) else MapIn(raw)
  }

  // ---------------------------------------------------------------- descriptors

  function IdValueOf(e: Entry): Option<Value> { if e.key == Text(ID) then Some(e.value) else None }

  function TypeValueOf(e: Entry): Option<Value> { if e.key == Text(TYPE) then Some(e.value) else None }

  /** A credential id in an entry of a descriptor. */
  function IdBytesOf(e: Entry): Option<bytes>
  {
    if e.key == Text(ID) && e.value.Bytes? then Some(e.value.b) else None
  }

  function IdBytesIn(e: Entry): seq<bytes> { ToSeq(IdBytesOf(e)) }

  function DescriptorIds(v: Value): seq<bytes>
  {
    if v.Map? then FlatMap(IdBytesIn, v.entries) else []
  }

  function FirstDescriptorId(v: Value): Option<bytes>
  {
    if v.Map? then FirstSome(IdBytesOf, v.entries) else None
  }

  function Descriptor(id: Value, credType: Value): Value
  {
    Map(Sort([Entry(Text(ID), id), Entry(Text(TYPE), credType)]))
  }

  /** Keeps the last "id" and the last "type" of a descriptor; no "id", no descriptor. */
  function SanitizeDescriptor(v: Value): Option<Value>
  {
    if !v.Map? then None
    else match LastSome(IdValueOf, v.entries)
         case None => None
         case Some(id) => Some(Descriptor(id, LastSome(TypeValueOf, v.entries).GetOr(Text(PUBLIC_KEY))))
  }

  function SanitizedItem(v: Value): seq<Value> { ToSeq(SanitizeDescriptor(v)) }

  /** The list under `key`, sanitised; dropped when it is no array or nothing remains. */
  function SanitizeList(key: Value, v: Value): seq<Entry>
  {
    if v.Array? && FlatMap(SanitizedItem, v.items) != []
    then [Entry(key, Array(FlatMap(SanitizedItem, v.items)))]
    else []
  }

  // ---------------------------------------------------------------- reading GetAssertion

  datatype AssertionRequest = AssertionRequest(
    rpId: bytes,
    clientDataHash: bytes,
    userPresence: bool,
    userVerification: bool,
    allowListLen: nat,
    allowList: seq<bytes>)

  function RpIdOf(e: Entry): Option<bytes>
  {
    if e.key == Int(1) && e.value.Text? then Some(e.value.t) else None
  }

  function HashOf(e: Entry): Option<bytes>
  {
    if e.key == Int(2) && e.value.Bytes? then Some(e.value.b) else None
  }

  function AllowLenOf(e: Entry): Option<nat>
  {
    if e.key == Int(3) && e.value.Array? then Some(|e.value.items|) else None
  }

  /** The credential ids of a list of descriptors, in order. */
  function ListIds(v: Value): seq<bytes>
  {
    if v.Array? then FlatMap(DescriptorIds, v.items) else []
  }

  function AllowedIds(e: Entry): seq<bytes> { if e.key == Int(3) then ListIds(e.value) else [] }

  function FirstAllowedId(e: Entry): Option<bytes>
  {
    if e.key == Int(3) && e.value.Array? then FirstSome(FirstDescriptorId, e.value.items) else None
  }

  function UpFlag(e: Entry): Option<bool>
  {
    if e.key == Text(UP) && e.value.Bool? then Some(e.value.truth) else None
  }

  function UvFlag(e: Entry): Option<bool>
  {
    if e.key == Text(UV) && e.value.Bool? then Some(e.value.truth) else None
  }

  function UpIn(e: Entry): Option<bool>
  {
    if e.key == Int(5) && e.value.Map? then LastSome(UpFlag, e.value.entries) else None
  }

  function UvIn(e: Entry): Option<bool>
  {
    if e.key == Int(5) && e.value.Map? then LastSome(UvFlag, e.value.entries) else None
  }

  function RequestOf(entries: seq<Entry>): AssertionRequest
  {
    AssertionRequest(
      LastSome(RpIdOf, entries).GetOr(NO_ASSERTION_RP),
      LastSome(HashOf, entries).GetOr([]),
      LastSome(UpIn, entries).GetOr(true),
      LastSome(UvIn, entries).GetOr(false),
      LastSome(AllowLenOf, entries).GetOr(0),
      FlatMap(AllowedIds, entries))
  }

  function RequestIn(raw: bytes): AssertionRequest
  {
    RequestOf(RequestMap(raw).GetOr([]))
  }

  function FirstAllowListId(raw: bytes): Option<bytes>
  {
    FirstSome(FirstAllowedId, RequestMap(raw).GetOr([]))
  }

  // ---------------------------------------------------------------- rewriting GetAssertion

  function GaRewrite(e: Entry): seq<Entry>
  {
    match e.key
    case Int(n) => if n == 1 || n == 2 then [e] else if n == 3 then SanitizeList(e.key, e.value) else []
    case _ => []
  }

  function GaOptions(uv: bool): Entry
  {
    Entry(Int(5), Map(Sort([Entry(Text(UP), Bool(true)), Entry(Text(UV), Bool(uv))])))
  }

  function GaEntries(entries: seq<Entry>): seq<Entry>
  {
    Sort(FlatMap(GaRewrite, entries) + [GaOptions(LastSome(UvIn, entries).GetOr(true))])
  }

  function GaPayload(raw: bytes): bytes
  {
    match RequestMap(raw)
    case None => raw
    case Some(entries) => [raw[0]] + Encode(Map(GaEntries(entries)))
  }

  // ---------------------------------------------------------------- MakeCredential

  function NameValueOf(e: Entry): Option<Value> { if e.key == Text(NAME) then Some(e.value) else None }

  function DisplayNameValueOf(e: Entry): Option<Value>
  {
    if e.key == Text(DISPLAY_NAME) then Some(e.value) else None
  }

  function NonEmptyText(v: Option<Value>): Option<bytes>
  {
    if v.Some? && v.value.Text? && v.value.t != [] then Some(v.value.t) else None
  }

  function EntriesOf(v: Value): seq<Entry> { if v.Map? then v.entries else [] }

  function RpOther(e: Entry): seq<Entry>
  {
    if e.key == Text(ID) || e.key == Text(NAME) then [] else [e]
  }

  function RpId(rp: seq<Entry>): bytes
  {
    NonEmptyText(LastSome(IdValueOf, rp)).Or(NonEmptyText(LastSome(NameValueOf, rp))).GetOr(WEBAUTHN)
  }

  function RpName(rp: seq<Entry>): bytes
  {
    NonEmptyText(LastSome(NameValueOf, rp)).GetOr(RpId(rp))
  }

  function RpRecord(id: bytes, name: bytes, rp: seq<Entry>): seq<Entry>
  {
    Sort([Entry(Text(ID), Text(id)), Entry(Text(NAME), Text(name))] + FlatMap(RpOther, rp))
  }

  function CleanRp(rp: seq<Entry>): seq<Entry> { RpRecord(RpId(rp), RpName(rp), rp) }

  function UserOther(e: Entry): seq<Entry>
  {
    if e.key == Text(ID) || e.key == Text(NAME) || e.key == Text(DISPLAY_NAME) then [] else [e]
  }

  function UserName(user: seq<Entry>): bytes
  {
    NonEmptyText(LastSome(NameValueOf, user)).Or(NonEmptyText(LastSome(DisplayNameValueOf, user))).GetOr(USER)
  }

  function UserDisplayName(user: seq<Entry>): bytes
  {
    NonEmptyText(LastSome(DisplayNameValueOf, user)).GetOr(UserName(user))
  }

  function UserRecord(id: Value, name: bytes, displayName: bytes, user: seq<Entry>): seq<Entry>
  {
    Sort([Entry(Text(ID), id), Entry(Text(NAME), Text(name)), Entry(Text(DISPLAY_NAME), Text(displayName))]
         + FlatMap(UserOther, user))
  }

  function UserId(user: seq<Entry>): Value { LastSome(IdValueOf, user).GetOr(Bytes(UserName(user))) }

  function CleanUser(user: seq<Entry>): seq<Entry>
  {
    UserRecord(UserId(user), UserName(user), UserDisplayName(user), user)
  }

  const ES256_FIELD := Entry(Text(ALG), Int(-7))

  predicate OffersEs256(v: Value)
  {
    v.Array? && exists p | p in v.items :: p.Map? && ES256_FIELD in p.entries
  }

  const ES256_PARAMS := Array([Map(Sort([ES256_FIELD, Entry(Text(TYPE), Text(PUBLIC_KEY))]))])

  const MC_OPTIONS := Entry(Int(7), Map(Sort([Entry(Text(RK), Bool(true)), Entry(Text(UV), Bool(true))])))

  function McRewrite(e: Entry): seq<Entry>
  {
    match e.key
    case Int(n) =>
      if n == 1 then [e]
      else if n == 2 then [Entry(e.key, Map(CleanRp(EntriesOf(e.value))))]
      else if n == 3 then [Entry(e.key, Map(CleanUser(EntriesOf(e.value))))]
      else if n == 4 then [if OffersEs256(e.value) then Entry(e.key, ES256_PARAMS) else e]
      else if n == 5 then SanitizeList(e.key, e.value)
      else if n == 7 then [MC_OPTIONS]
      else []
    case _ => []
  }

  predicate HasKey(key: Value, entries: seq<Entry>)
  {
    exists e | e in entries :: e.key == key
  }

  function McInjected(entries: seq<Entry>): seq<Entry>
  {
    if HasKey(Int(7), entries) then [] else [MC_OPTIONS]
  }

  function McEntries(entries: seq<Entry>): seq<Entry>
  {
    Sort(FlatMap(McRewrite, entries) + McInjected(entries))
  }

  function McPayload(raw: bytes): bytes
  {
    match RequestMap(raw)
    case None => raw
    case Some(entries) => [raw[0]] + Encode(Map(McEntries(entries)))
  }

  function NonEmptyIdOf(e: Entry): Option<bytes> { NonEmptyText(IdValueOf(e)) }

  function NonEmptyNameOf(e: Entry): Option<bytes> { NonEmptyText(NameValueOf(e)) }

  /** The relying party a key-2 entry names: its last non-empty "id", else its last non-empty "name". */
  function RpNamedBy(e: Entry): Option<bytes>
  {
    if e.key == Int(2) && e.value.Map?
    then LastSome(NonEmptyIdOf, e.value.entries).Or(LastSome(NonEmptyNameOf, e.value.entries))
    else None
  }

  function RegistrationRp(entries: seq<Entry>): bytes
  {
    FirstSome(RpNamedBy, entries).GetOr(NO_REGISTRATION_RP)
  }

  function RegistrationRpIn(raw: bytes): bytes
  {
    RegistrationRp(RequestMap(raw).GetOr([]))
  }

  /** The names browsers use to ask for a touch rather than a credential. */
  predicate DummyRp(rp: bytes)
  {
    rp == Ascii("make.me.blink") || rp == Ascii(".dummy") || rp == Ascii("dummy")
  }

  // ---------------------------------------------------------------- responses

  function CredentialIdOf(e: Entry): Option<bytes>
  {
    if e.key == Int(1) then FirstDescriptorId(e.value) else None
  }

  function AssertionIdIn(raw: bytes): Option<bytes>
  {
    FirstSome(CredentialIdOf, ResponseMap(raw).GetOr([]))
  }

  /** The id in attested credential data: flag AT at octet 32, length at 53, id at 55. */
  function AttestedId(authData: bytes): Option<bytes>
  {
    if |authData| >= 55 && authData[32] / 64 % 2 == 1 then
      var n := FromBigEndian(authData[53..55]);
      if n > 0 && |authData| >= 55 + n then Some(authData[55..55 + n]) else None
    else None
  }

  function AttestedIdOf(e: Entry): Option<bytes>
  {
    if e.key == Int(2) && e.value.Bytes? then AttestedId(e.value.b) else None
  }

  function RegisteredIdIn(raw: bytes): Option<bytes>
  {
    FirstSome(AttestedIdOf, ResponseMap(raw).GetOr([]))
  }

  /** Flags and counter are zero: neither presence nor verification is claimed. */
  function SilentAuthData(rpIdHash: bytes): bytes { rpIdHash + [0x00] + [0, 0, 0, 0] }

  function DummySignature(): bytes { seq(64, _ => 0) }

  function AssertionResponse(descriptor: Value, authData: bytes, signature: bytes): bytes
  {
    Encode(Map(Sort([Entry(Int(1), descriptor), Entry(Int(2), Bytes(authData)), Entry(Int(3), Bytes(signature))])))
  }

  /** The synthetic answer to a silent probe; `rpIdHash` is the SHA-256 of the relying party id. */
  function SilentAssertion(rpIdHash: bytes, descriptor: Value): bytes
  {
    AssertionResponse(descriptor, SilentAuthData(rpIdHash), DummySignature())
  }
}
