# A Dafny model of cable-uhid-bridge

cable-uhid-bridge shows the browser a virtual USB security key and lets a phone answer its requests.
Three layers decide what the browser gets back, and this project models them as one stack.

- **CTAPHID** (`src/ctaphid.rs`). A reassembler for interleaved channels with sequence numbers, declared
  lengths and a 3 s limit, and its inverse, the fragmentation of replies into 64-octet reports.
  `CtapHid` holds packets, the pending payloads and the device object; `CtapHidRuns` says what pending and
  delivered messages are over arbitrary report sequences, `CtapHidExact` exactly when something is delivered
  or refused, `CtapHidRoundTrip` that what was split arrives.
- **CTAP2** (`src/ctap2.rs`). Requests are decoded, rewritten for the phone, sorted into canonical order and
  encoded again. `Cbor` is a concrete codec, `CborOrder` the stable in-place sort, `Ctap2` the specification
  of every reader and rewriter, `Ctap2Handlers` the loops that compute them. `Ctap2Wire`, `Ctap2Idempotence`,
  `Ctap2Canonical`, `Ctap2Ordering`, `Ctap2Meaning`, `Ctap2RelyingParty` and `Ctap2Registration` hold the theorems.
  `Ctap2Reading`, `Ctap2Account`, `Ctap2Forwarding` and `Ctap2Octets` say, on the entries and octets of a request
  alone, what is read from it, what is supplied to it and what is forwarded.
- **Engine and daemon** (`src/engine.rs`, `src/main.rs`). A timed state machine with a cooldown and a
  take-or-restore assertion cache, driven by the outer loop and the transaction loop. `Engine` and `Daemon`
  hold the state machine and the objects that implement it; `DaemonRuns` the invariant of every run and
  `DaemonTraces` its ledger at each point; `DaemonRounds` what one round shows. `DaemonReplies`, `DaemonCache`,
  `DaemonCooldown` and `DaemonReports` say what follows for the host, the phone, the cache and the wire.

Methods have loops and fields where the Rust code has them, and each is proved equal to a function of its
inputs or old state. The theorems are about those functions. `Bytes`, `Folds` and `KeyFolds` hold helpers.

## How to read the model

- A CBOR map is a sequence of entries, so duplicate keys are visible. Some readers take the first match, some the
  last, some collect all; the folds `FirstSome`, `LastSome` and `FlatMap` say which.
- A run is a sequence of rounds. A round gives the daemon an instant, perhaps a report, the state of the phone
  task, whether the user cancelled, and a random channel id. A round records observations: a request taken, a
  transaction begun or ended, a cache replay, a message sent or one too long to frame.
- `Carries` allows a report id in front of a packet, so reports have 64 or 65 octets in any mixture, and leaves the
  tail of a report arbitrary, because the source reuses one report buffer for all fragments of a message
  (`src/ctaphid.rs:80-85`, `src/ctaphid.rs:275-279`).
- `IsSlice` limits a request to 2^63-1 octets, the size of a slice on the 64-bit platforms the daemon runs on.

## What was found

- An allow-list id can be lost: a descriptor with a byte-string "id" followed by another "id" is parsed with the first
  id and forwarded without it. The list keeps its meaning exactly when no descriptor does that
  (`Ctap2Meaning.GetAssertionMeaning`, `Ctap2Meaning.ShadowedIdIsLost`). The same holds for exclude lists.
- Outside cooldown a silent probe that lists ids gets the first of them exactly if its last allow list is not empty and
  that id has at most 7476 octets. The length is taken from the last list, the ids from all
  (`Engine.SilentProbe`, `Engine.SilentProbeUnanswered`), and the answer to a longer id cannot be framed
  (`DaemonReplies.SilentProbeReplied`, `DaemonReplies.LongProbeIsLost`).
- A reply longer than 7609 octets cannot be framed. The daemon drops it, and that request gets no reply
  (`DaemonReplies.OneReplyPerRequest`, `DaemonReplies.UnsendableIsTooLong`). For the phone's answers, and replays of
  them, these are exactly those of more than 7608 octets (`DaemonReplies.AnswerPassedOn`,
  `DaemonReplies.ReplayPassedOn`, `DaemonReplies.LongAnswerIsLost`); for silent probes, see above.
- INIT on the channel of an open transaction aborts it even if the message is too short and is itself refused with an
  error (`DaemonRounds.AbortedOnlyByInit`).
- With repeated keys a registration can be decided for another relying party than the one the request names: the
  decision looks at the last "id" of the first rp map, the request's own reader at the last non-empty text
  (`Engine.DeniesDummies`, `Engine.ShadowedDummyStarts`).
- The comment at `src/ctap2.rs:439` says all maps are put in canonical order. The code orders those it rebuilds and
  copies the others. An algorithm list without ES256 whose maps are unordered stays so
  (`Ctap2Ordering.MakeCredentialOrdered`, `Ctap2Ordering.CopiedMapsStayUnordered`).
- The comment at `src/ctap2.rs:433-437` says ES256 is offered and that rp and user fields exist. That holds when the
  request offered ES256 or had those keys (`Ctap2Canonical.OffersForwarded`, `Ctap2Canonical.KeysForwarded`); a request
  with an empty map is forwarded without them (`Ctap2Canonical.EmptyRequestForwarded`).
- The length-first key order leaves a map in the bytewise order of section 4.2.1 of RFC 8949 exactly when no key is
  longer than one that comes after it bytewise (`CborOrder.SortedBytewise`). For scalar keys that is to say that no key
  of a smaller major type is longer than one of a greater (`CborOrder.ScalarsSortedBytewise`,
  `CborOrder.MixedKindsDisagree`), so maps whose scalar keys share one major type always qualify; maps with array keys
  need not (`CborOrder.ArrayKeysDisagree`).

## Model

| member | source | states |
|---|---|---|
| Cbor.RoundTrip | src/ctap2.rs:679-687 | What is written decodes to the same value, whatever octets follow; the request rewriters rely on it when their output is parsed again. |
| Cbor.EncodeInjective | src/ctap2.rs:219-227 | Two values have the same encoding only if they are the same, so comparing encoded keys compares keys. |
| Cbor.TruncationFails | src/ctap2.rs:222-224 | An encoding that is cut short does not decode, so an incomplete request is treated as undecodable. |
| Cbor.DecodeExtends | src/ctap2.rs:37 | What decodes does so whatever octets follow it, to the same value. |
| Cbor.DecodeAnyWidth | src/ctap2.rs:37 | Integers are read from arguments of any width, not only the shortest. |
| Ctap2Octets.IntegerLayout | src/ctap2.rs:219-227 | The octets of every integer in preferred form, by width. |
| Ctap2Octets.ContainerLayout | src/ctap2.rs:219-227 | Items, keys and values follow a head of one octet in turn. |
| CborOrder.SortCborMap | src/ctap2.rs:219-227 | The in-place sort leaves in the slice exactly the stable length-first order of what was there. |
| CborOrder.SortSorted | src/ctap2.rs:216-227 | The result is in order: shorter encodings first, equal lengths bytewise. |
| CborOrder.SortMembers | src/ctap2.rs:219-227 | Sorting loses, adds and duplicates nothing. |
| CborOrder.SortStable | src/ctap2.rs:220 | For each key, the entries with that key keep their order. |
| CborOrder.SortedUnique | src/ctap2.rs:219-227 | Two sorted lists with the same entries per key are the same list. |
| CborOrder.SortOfSorted | src/ctap2.rs:219-227 | Sorting a sorted map changes nothing. |
| CborOrder.SortPermutation | src/ctap2.rs:216-227 | With distinct keys, every permutation of a map sorts to the same list. |
| CborOrder.NumericOrder | src/ctap2.rs:216-227 | On non-negative integer keys the order is the numeric order. |
| CborOrder.AgreesWithBytewiseOrder | src/ctap2.rs:216-227 | On two scalar keys of one major type the code's order is the bytewise order of section 4.2.1 of RFC 8949. |
| CborOrder.AcrossMajors | src/ctap2.rs:216-227 | On any two keys of different major types the two orders agree exactly when the key of the smaller type is not the longer one. |
| CborOrder.SortedBytewise | src/ctap2.rs:216-227 | Any map, whatever its keys, is left sorted as that section asks if and only if no key is longer than one that comes after it bytewise. |
| CborOrder.ScalarsSortedBytewise | src/ctap2.rs:216-227 | For a map with scalar keys: if and only if no key of a smaller major type is longer than one of a greater. |
| CborOrder.MixedKindsDisagree | src/ctap2.rs:216-218 | The map with keys 24 and the empty text is sorted bytewise; the code swaps the two. |
| CborOrder.ArrayKeysDisagree | src/ctap2.rs:500 | The map with the array keys ["aaa"] and [1, 1], of one major type, is sorted bytewise; the code swaps the two. |
| Ctap2Handlers.ParseAssertionRequest | src/ctap2.rs:25-95 | Defaults, last rp id, last hash, last flags and last list length win, ids of all allow lists are collected; undecodable input gives the defaults. |
| Ctap2Handlers.ExtractFirstAllowListCredential | src/ctap2.rs:104-147 | The early-exit search returns the first byte-string id of any descriptor in any allow list, with its canonical descriptor. |
| Ctap2Handlers.ExtractAssertionCredentialId | src/ctap2.rs:150-178 | The first byte-string id in a key-1 map of a response, with or without the status octet. |
| Ctap2Handlers.ExtractMakeCredentialRpId | src/ctap2.rs:230-271 | The first rp map that names a non-empty text id, else name; inside it the last one wins. |
| Ctap2Handlers.ExtractMakeCredentialId | src/ctap2.rs:287-317 | The attested id of the first key-2 byte string that has one; every slice is in bounds on every input. |
| Ctap2Handlers.BuildSilentAssertionResponse | src/ctap2.rs:187-214 | The synthetic response: descriptor, 37 octets of authenticator data with no flag set, 64 zero octets. |
| Ctap2Handlers.SanitizeCredentialDescriptor | src/ctap2.rs:397-426 | Keeps the last id and the last type, supplies "public-key", and drops a descriptor without id. |
| Ctap2Handlers.PrepareGetAssertionForCable | src/ctap2.rs:696-803 | The loop computes the specified payload for every octet string, undecodable ones included. |
| Ctap2Handlers.PrepareMakeCredentialForCable | src/ctap2.rs:440-688 | The loop computes the specified payload for every octet string, undecodable ones included. |
| Ctap2Handlers.RewriteMakeCredentialEntry | src/ctap2.rs:470-665 | What one entry of the request contributes, key by key. |
| Ctap2Handlers.NormalizeRp | src/ctap2.rs:481-527 | An rp without a usable id or name gets each from the other, or "webauthn". |
| Ctap2Handlers.NormalizeUser | src/ctap2.rs:528-586 | A user gets a name, a display name and an id, each falling back on the others. |
| Ctap2Handlers.HasEs256 | src/ctap2.rs:592-610 | True exactly if some parameter map has an "alg" entry with value -7. |
| Ctap2Reading.Parsed | src/ctap2.rs:25-38 | A GetAssertion request made of any well-formed entries is parsed as those entries. |
| Ctap2Reading.ParsedNames | src/ctap2.rs:40-50 | The relying party is the last text under key 1, the hash the last byte string under key 2. |
| Ctap2Reading.ParsedFlags | src/ctap2.rs:52-67 | Presence and verification are the last boolean "up" and "uv" of the options. |
| Ctap2Reading.ParsedList | src/ctap2.rs:69-87 | The length is that of the last list; of a single list of plain descriptors the ids are read in order. |
| Ctap2Reading.ParsedDefaults | src/ctap2.rs:26-33 | What is missing: "Passkey Authentication", no hash, presence, no verification, no list. |
| Ctap2Reading.ParsedNothing | src/ctap2.rs:36-38 | Every octet string that does not decode to a map is parsed as those defaults. |
| Ctap2Reading.AssertionForwarded | src/ctap2.rs:726-792 | Relying party and hash are forwarded as they came, in order; the options are "up" true and "uv" as last set, or true. |
| Ctap2Reading.DescriptorForwarded | src/ctap2.rs:397-426 | A descriptor is forwarded as its last "id" and its last "type", or "public-key". |
| Ctap2Reading.DescriptorDropped | src/ctap2.rs:397-426 | A descriptor without "id", or that is no map, is dropped. |
| Ctap2Reading.RegistrationNamed | src/ctap2.rs:230-271 | The relying party of a registration is what the first rp map that names any names: its last non-empty "id", else its last non-empty "name". |
| Ctap2Reading.RegistrationUnnamed | src/ctap2.rs:230-271 | If no rp map names any, it is "Passkey Registration". |
| Ctap2Reading.AssertionIdRead | src/ctap2.rs:150-178 | The id of an assertion is the first byte-string "id" of the first key-1 map that has one, status octet or not. |
| Ctap2Reading.AttestedExactly | src/ctap2.rs:299-308 | An id is read from authenticator data exactly if the flag is set and the id is there in full and not empty. |
| Ctap2Reading.RegisteredIdRead | src/ctap2.rs:287-317 | The registered id is that of the first byte string under key 2 that has one, status octet or not. |
| Ctap2Reading.SilentAssertionForm | src/ctap2.rs:187-214 | The synthetic answer written out, entry by entry. |
| Ctap2Account.CleanUserNamed | src/ctap2.rs:528-586 | On any user map: a last name that is a non-empty text is kept, else the last such display name serves, else "user"; likewise the display name; a missing id is the name's octets. |
| Ctap2Account.CleanRpNamed | src/ctap2.rs:481-527 | On any rp map: a last id or name that is a non-empty text is kept, a missing one is the other, and with neither both are "webauthn". |
| Ctap2Account.AccountForwarded | src/ctap2.rs:481-586 | The same of every rp and every user of every request, read back from the octets the phone is sent. |
| Ctap2Forwarding.GetAssertionForwarded | src/ctap2.rs:708-802 | Of every request that decodes: key-1 and key-2 entries are sent as they came, and each allow list as its descriptors' last "id" and "type", in order; descriptors without "id" and lists without such descriptors are dropped. |
| Ctap2Forwarding.MakeCredentialForwarded | src/ctap2.rs:466-687 | Of every request that decodes: hashes are sent as they came, each algorithm list as ES256 alone if it offers it and else as it came, exclude lists as allow lists above, and {"rk": true, "uv": true} for each options map, or once if there is none. |
| Ctap2Forwarding.ItemBare | src/ctap2.rs:397-426 | One descriptor, map or not, is sent as its last "id" and last "type", or "public-key", or not at all. |
| Ctap2Octets.FieldNames | src/ctap2.rs:397-426 | The octets of the short field names. |
| Ctap2Octets.LongNames | src/ctap2.rs:397-426 | The octets of "displayName" and "public-key". |
| Ctap2Octets.SuppliedNames | src/ctap2.rs:506-571 | The octets of the names that are supplied. |
| Ctap2Octets.DummyNames | src/engine.rs:208 | The dummy relying parties, octet for octet. |
| Ctap2Octets.OptionsForm | src/ctap2.rs:649-675 | Options as forwarded: {"rk": true, "uv": true}, and {"up": true, "uv": ..} for GetAssertion. |
| Ctap2Octets.Es256Form | src/ctap2.rs:612-619 | The one algorithm that is forwarded when ES256 is offered. |
| Ctap2Octets.OffersExactly | src/ctap2.rs:592-610 | A list offers ES256 exactly if one of its maps has an entry "alg" with value -7. |
| Ctap2Octets.PassedThrough | src/ctap2.rs:441-465 | A request that is too short, or does not decode to a map, is forwarded as it is. |
| Ctap2Wire.GaReadBack | src/ctap2.rs:794-802 | The sanitised GetAssertion payload decodes to the rewritten entries under the same command octet. |
| Ctap2Wire.McReadBack | src/ctap2.rs:679-687 | The sanitised MakeCredential payload decodes to the rewritten entries under the same command octet. |
| Ctap2Idempotence.GetAssertionIdempotent | src/ctap2.rs:696-803 | Sanitising a sanitised GetAssertion payload changes no octet, for every input. |
| Ctap2Idempotence.MakeCredentialIdempotent | src/ctap2.rs:440-688 | Sanitising a sanitised MakeCredential payload changes no octet, for every input. |
| Ctap2Idempotence.CleanRpFixed | src/ctap2.rs:481-527 | A normalised rp is a fixed point, duplicate keys in the original notwithstanding. |
| Ctap2Idempotence.CleanUserFixed | src/ctap2.rs:528-586 | A normalised user is a fixed point. |
| Ctap2Canonical.GetAssertionCanonical | src/ctap2.rs:690-803 | Requests that differ by the order of distinct keys, at the top level, in options and in descriptors, give the same octets. |
| Ctap2Canonical.MakeCredentialCanonical | src/ctap2.rs:428-688 | The same for MakeCredential: top level, rp, user, and descriptors. |
| Ctap2Canonical.GetAssertionConforms | src/ctap2.rs:690-695 | Every forwarded request: keys 1, 2, 3, 5 ascending, no extensions, bare descriptors, and exactly one options entry, with "up" true and "uv" as last requested. |
| Ctap2Canonical.MakeCredentialConforms | src/ctap2.rs:428-439 | Every forwarded request: keys ascending, no extensions, complete rp and user, ES256 alone if offered, rk and uv requested and nothing else. |
| Ctap2Canonical.OffersForwarded | src/ctap2.rs:433-434 | ES256 is offered to the phone exactly when the request offered it. |
| Ctap2Canonical.KeysForwarded | src/ctap2.rs:435-437 | Hash, rp, user and algorithm list are present exactly when the request had them. |
| Ctap2Canonical.EmptyRequestForwarded | src/ctap2.rs:433-437 | The request 0x01 0xA0 is forwarded with its options alone: no rp, no user, no algorithm. |
| Ctap2Ordering.GetAssertionOrdered | src/ctap2.rs:695 | Every map at every depth of the payload is in order exactly when those copied unread from the request are. |
| Ctap2Ordering.MakeCredentialOrdered | src/ctap2.rs:439 | The same for MakeCredential. |
| Ctap2Ordering.CopiedMapsStayUnordered | src/ctap2.rs:439 | The octets of a request whose RS256-only algorithm list has "type" before "alg" show that the condition matters. |
| Ctap2Meaning.GetAssertionMeaning | src/ctap2.rs:696-803 | Parsing the sanitised request gives the same rp and hash, presence true, "uv" the last explicit one or true, and the same ordered ids exactly when no id is shadowed. |
| Ctap2Meaning.ShadowedIdIsLost | src/ctap2.rs:404-412 | The octets of a request that lists a descriptor with two ids: parsed with both, forwarded with the second. |
| Ctap2Meaning.OneIdIsSettled | src/ctap2.rs:397-426 | Descriptors with at most one "id" shadow none. |
| Ctap2Meaning.FirstAllowListIdIsHead | src/ctap2.rs:104-147 | On every input the early-exit search finds the head of the full parse's list, or nothing if that is empty. |
| Ctap2Meaning.SilentAssertionNames | src/ctap2.rs:187-214 | The id read back from the synthetic response is the one it was built for, status octet or not. |
| Ctap2Meaning.SilentAssertionSize | src/ctap2.rs:187-214 | The response is 130 octets and the width of the length longer than the id. |
| Ctap2Meaning.ResponseReadBack | src/ctap2.rs:288-292 | An encoded map never starts with 0x00, so the status octet is recognised without ambiguity. |
| Ctap2Meaning.AttestedIdRoundTrip | src/ctap2.rs:299-308 | From authenticator data as in sections 6.1 and 6.5.1 of WebAuthn Level 2 the id comes back exactly if flag AT is set and it is not empty. |
| Ctap2Meaning.MakeCredentialIdRoundTrip | src/ctap2.rs:273-317 | From any response map with distinct keys the attested id of 1 to 65535 octets comes back, status octet or not. |
| Ctap2RelyingParty.RpIdentity | src/ctap2.rs:481-527 | With distinct keys the effective rp survives normalisation if the request names one, becomes "webauthn" if key 2 names none, and stays the default without key 2. |
| Ctap2RelyingParty.SanitizedRp | src/ctap2.rs:230-271 | For any request, duplicates included, the rp read from the sanitised payload is the first key-2 entry's, normalised. |
| Ctap2RelyingParty.DummyDecision | src/engine.rs:203-210 | Every request is decided by the first key-2 entry: its last "id" if a non-empty text, else its last "name", else "webauthn". That is the rp the request itself names if that last "id" is a non-empty text, whatever is repeated; with distinct keys the decision is the same. |
| Ctap2Registration.ClientDataHashKept | src/ctap2.rs:474-480 | The key-1 entries are forwarded untouched, in order. |
| Ctap2Registration.AlgorithmsKept | src/ctap2.rs:587-624 | Algorithm lists that offer no ES256 are forwarded untouched. |
| Ctap2Registration.RpFieldsKept | src/ctap2.rs:492-502 | Every other rp field is kept, in order per key. |
| Ctap2Registration.UserFieldsKept | src/ctap2.rs:540-567 | Every other user field is kept, and so is a user id that was given. |
| Ctap2Registration.ExcludeListMeaning | src/ctap2.rs:625-643 | The excluded ids are the same, in order, exactly when no descriptor shadows an id; otherwise there are fewer. |
| CtapHid.Device.constructor | src/ctaphid.rs:61-66 | No pending payload, nothing written. |
| CtapHid.Device.ProcessReportBytes | src/ctaphid.rs:68-148 | New pending payloads, delivered message and error report for every report, malformed and stale cases included. |
| CtapHid.Device.SendSinglePacket | src/ctaphid.rs:243-259 | One report if the data fit 57 octets, else failure and nothing written. |
| CtapHid.Device.SendResponse | src/ctaphid.rs:261-281 | All fragments through one reused buffer; more than 7609 octets fail and write nothing. |
| CtapHid.Device.SerializeInto | src/ctaphid.rs:277 | A packet overwrites the front of the buffer and leaves the stale tail. |
| CtapHid.Device.WriteFragments | src/ctaphid.rs:275-279 | The loop writes one report per packet, each over what the packet before left in the buffer. |
| CtapHid.InitNegotiates | src/ctaphid.rs:182-224 | The reply goes to the asking channel, echoes the nonce, names that channel, or on broadcast the random one unless that is 0 or broadcast, and ends with version and capability octets. |
| CtapHid.InitRefused | src/ctaphid.rs:178-180 | INIT shorter than a nonce is refused with error 0x03. |
| CtapHid.InitDrops | src/ctaphid.rs:184-205 | INIT with a nonce, other than on broadcast, drops what is pending on its channel and nothing else. |
| CtapHid.PacketLayout | src/ctaphid.rs:272-279 | The octets of a packet, in the order of section 11.2.4 of FIDO CTAP 2.1. |
| CtapHid.ParsedIsSerialized | src/ctaphid.rs:80-93 | What is read as a packet is that packet octet for octet, and only what is cut short is none. |
| CtapHid.Device.HandleInit | src/ctaphid.rs:177-225 | Short data is refused; broadcast allocates a channel and resets none; another channel is reset; the reply is as specified. |
| CtapHidRuns.PendingCounted | src/ctaphid.rs:138 | For arbitrary reports the expected sequence number never passes 128, so its octet never overflows. |
| CtapHidRuns.PendingArithmetic | src/ctaphid.rs:122-143 | For 64- or 65-octet reports a pending payload holds 57 + 59 n octets for n accepted continuations, fewer than declared. |
| CtapHidRuns.DeliveredFits | src/ctaphid.rs:135-143 | No run delivers more than 7609 octets, whatever length was declared. |
| CtapHidRuns.PendingHistory | src/ctaphid.rs:106-138 | Every pending payload is one start and the in-order continuations since, with no restart or reset between them. |
| CtapHidRuns.NoSplicing | src/ctaphid.rs:95-147 | Every delivered message is one packet, or the declared prefix of one uninterrupted assembly that took less than 3 s. |
| CtapHidRuns.Independence | src/ctaphid.rs:76-147 | With a monotone clock every event on a channel has the outcome it would have if only that channel's events had happened, and it concerns that channel only. |
| CtapHidExact.DeliveredExactly | src/ctaphid.rs:95-147 | A message is delivered if and only if it is a single packet or completes, in order and in time, what its channel's history started. |
| CtapHidExact.SequenceErrorExactly | src/ctaphid.rs:125-133 | A sequence error is reported if and only if a continuation is out of order for a message still going; the message is dropped. |
| CtapHidExact.GoingIsPending | src/ctaphid.rs:106-138 | What was started and continued in order and in time is pending, whatever state the reassembler was in before. |
| CtapHidRoundTrip.InterleavedRoundTrip | src/ctaphid.rs:261-281 | From any state, whatever other channels send, whatever the padding, and with 64- and 65-octet reports in any mixture, a message of at most 7609 octets is delivered exactly at its last report and at no other. |
| CtapHidRoundTrip.OneMessage | src/ctaphid.rs:95-147 | The same for a channel alone. |
| CtapHidRoundTrip.WireTransmits | src/ctaphid.rs:272-279 | The reports the device writes, stale padding included, are such a transmission. |
| CtapHidRoundTrip.FragmentAt | src/ctaphid.rs:272-274 | Fragment k holds the octets after 57 + 59 (k - 1), numbered k - 1, and only the last one completes the message. |
| Engine.BridgeEngine.constructor | src/engine.rs:103-111 | No cooldown, empty cache, no pending hash. |
| Engine.BridgeEngine.IsInCooldown | src/engine.rs:114-120 | Less than 5 s since the last recorded cancellation. |
| Engine.BridgeEngine.RecordCancellation | src/engine.rs:123-125 | The window starts now; nothing else changes. |
| Engine.BridgeEngine.HandleCborRequest | src/engine.rs:134-221 | Action and new engine state for every request. |
| Engine.BridgeEngine.HandleGetAssertion | src/engine.rs:155-194 | Silent answers, replay with take or restore of the cache, or a transaction; only cache and pending hash may change. |
| Engine.BridgeEngine.HandleTransactionOutcome | src/engine.rs:226-266 | A GetAssertion success fills the cache from the pending hash; everything but success starts the cooldown; a reset sends nothing. |
| Engine.SilentProbe | src/engine.rs:158-175 | Outside cooldown the engine never starts a transaction or touches the cache for a silent probe with listed ids; it answers with "no credentials" if the last allow list is empty, else with a response of known size that names the first listed id. |
| Engine.SilentProbeUnanswered | src/engine.rs:160-163 | A probe with a full and then an empty allow list is answered with "no credentials". |
| Engine.ProbeRequest | src/ctap2.rs:25-95 | The octets of a silent probe for one id, and how they are parsed. |
| DaemonReplies.SilentProbeReplied | src/main.rs:95-101 | The host gets the first listed id exactly if the last allow list is not empty and the id has at most 7476 octets; an empty last list gets "no credentials", a longer id gets no reply. |
| DaemonReplies.LongProbeIsLost | src/main.rs:99-101 | The octets of a probe for one id of up to 7592 octets fit one message; from 7477 octets on, the answer does not. |
| Engine.DeniesDummies | src/engine.rs:203-216 | Outside cooldown exactly the registrations decided to be for a dummy name are denied; every other one starts a transaction for that rp with the sanitised payload. These are the requests whose own rp is a dummy if the last "id" of the first rp map is a non-empty text or no key is repeated. |
| Engine.ShadowedDummyStarts | src/engine.rs:203-210 | That condition matters: a request whose rp map has the id ".dummy" and then another id, not a text, starts a transaction. |
| Engine.EmptyProbe | src/engine.rs:158-163 | A silent probe whose last allow list is empty, or missing, is answered 0x2E. |
| Engine.AssertionAsked | src/engine.rs:177-194 | Any other request that the cache does not answer starts a transaction for its relying party with the sanitised payload. |
| Daemon.Bridge.constructor | src/main.rs:56-73 | The daemon starts with no session. |
| Daemon.Bridge.OuterLoopRound | src/main.rs:75-132 | One turn of the dispatch loop: state and reports written. |
| Daemon.Bridge.DispatchMessage | src/main.rs:77-123 | What each command does: INIT, PING, WINK, CBOR, or an error. |
| Daemon.Bridge.HandleCborMessage | src/main.rs:95-118 | A CBOR message: status, response, new session, or nothing for an empty one. |
| Daemon.Bridge.TransactionLoopRound | src/main.rs:188-251 | One turn of the transaction loop: task result, user cancellation, keepalive, then poll. |
| Daemon.Bridge.HandleDuringTransaction | src/main.rs:213-247 | CANCEL and INIT end the session only on its channel; PING and WINK are answered; all else is ignored. |
| Daemon.Bridge.FinishTransaction | src/main.rs:253-297 | The engine learns the result and the channel gets the reply, if there is one. |
| DaemonRuns.RunConsistent | src/main.rs:75-298 | The invariant of every run: protocol, session, pending hash, cache, replays and cooldown agree with what an onlooker has seen; the cache is full exactly while the last answer is unreplayed. |
| DaemonRounds.RequestTaken | src/main.rs:77-95 | A request is taken, once and first of all, for each non-empty CBOR message read outside a transaction, and for nothing else. |
| DaemonRounds.MessageServed | src/main.rs:77-123 | In both loops PING is echoed, WINK acknowledged and INIT answered; any other command is an error outside a transaction and ignored during one; a due keepalive comes first. |
| DaemonRounds.OtherRequestsAnswered | src/engine.rs:135-145 | GetInfo gets the fixed answer, an unknown command 0x2B, an empty message nothing, in cooldown or not; the engine stays as it is. |
| DaemonRounds.RequestBegins | src/main.rs:102-116 | What the engine begins is taken and begun on the channel of the request, and nothing else happens. |
| DaemonRounds.DisorderAnswered | src/ctaphid.rs:125-132 | A continuation out of order is answered with error 0x04 on its channel. |
| DaemonRounds.PendingAfter | src/ctaphid.rs:199 | INIT drops what is pending as said above; no other message touches what is pending. |
| DaemonRounds.EndedExactly | src/main.rs:188-251 | Why a transaction ends, for each result exactly: the phone answered, its task broke, the user cancelled, CANCEL or INIT was read on its channel, in this order; otherwise it stays open. |
| DaemonRounds.EveryEndReplied | src/main.rs:253-297 | Whatever ends a transaction is followed at once by its reply on its channel: the phone's octets behind 0x00, or 0x2D, or nothing after a reset. |
| DaemonReplies.OneReplyPerRequest | src/main.rs:95-118 | In every run, on every channel: requests taken = replies sent + replies too long to frame + aborted by INIT + the open one. |
| DaemonReplies.UnsendableIsTooLong | src/ctaphid.rs:272-274 | In every run a message is sent if and only if it has at most 7609 octets. |
| DaemonReplies.AnswerPassedOn | src/main.rs:255-282 | In every run the phone's response is followed at once by the reply that carries it behind 0x00 on the request's channel, and that is written if and only if the response has at most 7608 octets. |
| DaemonReplies.LongAnswerIsLost | src/main.rs:280-282 | A concrete run: a request in one report and a response of 7609 octets or more end with one request taken and no reply; a shorter response is one reply. |
| DaemonReplies.ReplayPassedOn | src/engine.rs:178-182 | In every run a replay stands between the request it is for and the reply on that channel, which is the cached response, written if and only if that has at most 7608 octets. |
| DaemonReplies.ClosedBeforeNext | src/main.rs:107-115 | Each request is closed before the next one is taken: one transaction at a time. |
| DaemonReplies.KeepAlivesSpaced | src/main.rs:206-209 | Every keepalive of a run says 0x02 and is for a request taken before on its channel and not closed since, at least 100 ms after that request and after every keepalive for it. |
| DaemonReplies.KeepAlivesInTime | src/main.rs:206-209 | After every round that leaves a transaction open, its request or its last keepalive is less than 100 ms old. |
| DaemonRounds.AbortedOnlyByInit | src/main.rs:224-232 | A round ends the session without a reply if and only if the phone is still busy, the user has not cancelled, and INIT of whatever length is read on its channel; the reset is then the last thing seen. Outside a session nothing ends. |
| DaemonRounds.SessionUntouched | src/main.rs:206-250 | Whatever arrives while a transaction stays open, CBOR requests included, changes neither the engine nor what the transaction is for. |
| DaemonRounds.TracePlaced | src/main.rs:95-297 | In every run each request is at once begun, replayed or answered on its channel; what is begun or replayed was just taken; replays and ends are followed by their replies. |
| DaemonCache.CacheProvenance | src/engine.rs:234-243 | In every run the cached assertion carries rp and hash of the request whose transaction the phone answered last, and that answer. |
| DaemonCache.CacheExactly | src/engine.rs:178-187 | In every run the cache is full if and only if no replay followed the phone's last answer: a request that does not match leaves it, and nothing else takes it. |
| DaemonCache.FreshAnswerReplayed | src/engine.rs:177-182 | While the last answer is unreplayed, a GetAssertion request for the same party, with the same hash where both name one, at most 10 s later, and listing the answer's id if it lists any, outside cooldown and no silent probe, is answered with it at once and starts no transaction, whatever came in between. |
| DaemonCache.PhoneAsked | src/engine.rs:177-194 | A GetAssertion request outside cooldown, no settled probe, for which no such answer is there, starts a transaction for its relying party with the sanitised request. |
| DaemonCache.ReplayProvenance | src/engine.rs:36-57 | Every replay is the phone's last answer, to the same rp and, where both name one, the same hash, at most 10 s old, and listed if ids are. |
| DaemonCache.ReplayConservation | src/engine.rs:178-187 | Replays so far plus a full cache never exceed successful GetAssertion transactions, and no answer is replayed twice. |
| DaemonCache.AnsweredBetweenReplays | src/engine.rs:178-187 | Between any two replays of a run the phone answered. |
| DaemonCache.PhoneSeesSanitised | src/engine.rs:189-216 | Every transaction sends the request just taken through the rewriter for its own command, and only GetAssertion and MakeCredential start one. |
| DaemonCache.EndsWhatBegan | src/main.rs:253 | Every transaction that ends began before, and is of the type of the request it began for. |
| DaemonCooldown.CooldownHolds | src/engine.rs:147-201 | Within 5 s of any failed, cancelled or reset transaction a request is answered 0x2D and leaves the engine unchanged. |
| DaemonCooldown.CooldownBurst | src/engine.rs:113-125 | Over any burst of messages in that window nothing is begun and nothing replayed, and the engine, hence the window, is unchanged. |
| DaemonCooldown.CoolsExactly | src/engine.rs:113-120 | In every run with a monotone clock the engine is in cooldown if and only if some transaction failed, was cancelled or was reset less than 5 s ago. |
| DaemonCooldown.CancelAnsweredExactly | src/engine.rs:147-201 | In every such run a CBOR message is answered 0x2D if and only if it is a GetAssertion or MakeCredential request and such a failure is less than 5 s old. |
| DaemonReports.StackHistory | src/main.rs:75-251 | The pending payloads of the daemon are the reassembler's on the reports and resets of the run. |
| DaemonReports.MessagesUnspliced | src/main.rs:76-77 | Every message the daemon acts on arrived whole. |
| DaemonReports.MessagesFit | src/main.rs:76-77 | With regular reports it has at most 7609 octets, so the bound on request length above always holds. |
| DaemonReports.RunDaemon | src/main.rs:75-132 | The daemon object, looping over any inputs, has the state of the run and has written exactly the reports of its observations. |
| DaemonReports.HostGetsWhatWasSent | src/ctaphid.rs:261-281 | A host that reads that log, in any reassembler state and with any pauses between messages, but less than 3 s over each, is delivered exactly the messages the run sent, in order. |
| DaemonReports.ReadingAlong | src/ctaphid.rs:261-281 | A host that reads each report as it is written is such a host, whatever the clock does. |
| DaemonReports.RequestArrives | src/main.rs:76-77 | What the host sends arrives, report ids or not: when the last report of a message comes in, within 3 s of the first and amid any traffic on other channels, the daemon reads that message, and takes it if it is a request and no session is open. |
| CtapHidRoundTrip.OneDelivery | src/ctaphid.rs:261-281 | The reports of one message deliver that message once and nothing else. |

## Left out

- CBOR floats, tags, bignums, indefinite lengths, other simple values and the nesting limit of the ciborium crate: the model's decoder calls such items undecodable.
- The ciborium and ctaphid-types crates are not part of this model: items follow section 3 of RFC 8949 in the preferred form of section 4.1, packets section 11.2.4 of FIDO CTAP 2.1.
- The standard library's stable sort: an insertion sort stands in for it, and any stable sort gives the same result by `CborOrder.SortedUnique`.
- Serialization errors (src/ctap2.rs:680-685, 795-800): writing into a vector cannot fail.
- Summary strings, logging, printed messages and extract_assertion_rp_id, which is a field of the parsed request.
- Ctap2Handlers.BuildSilentAssertionResponse: takes the SHA-256 of the rp id as a parameter; `Engine.Platform` supplies the hash, of which only the length is used.
- The GetInfo response (src/ctap2.rs:322-388) is a constant of the platform; it carries no state.
- CtapHid.Device.HandleInit: takes the random channel id as a parameter, and the model replaces reserved values as the code does.
- Daemon.Bridge.OuterLoopRound: device writes succeed; time is in whole milliseconds with one instant per round; sleeps only delay the next round.
- Daemon.Bridge.TransactionLoopRound: the phone task is an input that is running, has answered with arbitrary octets, or has failed; the caBLE tunnel, BLE, Noise and tokio scheduling are not modelled.
- The user interface (src/ui.rs, src/bridge_ui.rs) is reduced to "the user cancelled"; the UHID device (src/vhid.rs) to reports read and reports written.
- reset_cooldown (src/engine.rs:129-131), which the daemon does not call, and the installers.
