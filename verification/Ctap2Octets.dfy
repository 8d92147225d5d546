/**
 The octets of names, codes and small maps, written out: what the constants of the model stand for,
 and what the encoder makes of the values of appendix A of RFC 8949.
 */
module Ctap2Octets {
  import opened Bytes
  import opened Cbor
  import opened CborOrder
  import opened Ctap2
  import opened Ctap2Wire
  import opened Ctap2Idempotence

  // ---------------------------------------------------------------- names and codes

  /** The field names of CTAP2 requests, in ASCII. */
  lemma FieldNames()
    ensures ID == [0x69, 0x64]
    ensures TYPE == [0x74, 0x79, 0x70, 0x65]
    ensures NAME == [0x6E, 0x61, 0x6D, 0x65]
    ensures ALG == [0x61, 0x6C, 0x67]
    ensures UP == [0x75, 0x70]
    ensures UV == [0x75, 0x76]
    ensures RK == [0x72, 0x6B]
  {
    assert |ID| == 2;
    assert |TYPE| == 4;
    assert |NAME| == 4;
    assert |ALG| == 3;
    assert |UP| == 2;
    assert |UV| == 2;
    assert |RK| == 2;
  }

  /** "displayName" and "public-key". */
  lemma LongNames()
    ensures DISPLAY_NAME == [0x64, 0x69, 0x73, 0x70, 0x6C, 0x61, 0x79, 0x4E, 0x61, 0x6D, 0x65]
    ensures PUBLIC_KEY == [0x70, 0x75, 0x62, 0x6C, 0x69, 0x63, 0x2D, 0x6B, 0x65, 0x79]
  {
    assert |DISPLAY_NAME| == 11;
    assert |PUBLIC_KEY| == 10;
  }

  /** The names the program supplies to a request that has none. */
  lemma SuppliedNames()
    ensures WEBAUTHN == [0x77, 0x65, 0x62, 0x61, 0x75, 0x74, 0x68, 0x6E]
    ensures USER == [0x75, 0x73, 0x65, 0x72]
  {
    assert |WEBAUTHN| == 8;
    assert |USER| == 4;
  }

  /** "Passkey Authentication". */
  lemma AssertionDefault()
    ensures NO_ASSERTION_RP
         == [0x50, 0x61, 0x73, 0x73, 0x6B, 0x65, 0x79, 0x20, 0x41, 0x75, 0x74,
             0x68, 0x65, 0x6E, 0x74, 0x69, 0x63, 0x61, 0x74, 0x69, 0x6F, 0x6E]
  {
    assert |NO_ASSERTION_RP| == 22;
  }

  /** "Passkey Registration". */
  lemma RegistrationDefault()
    ensures NO_REGISTRATION_RP
         == [0x50, 0x61, 0x73, 0x73, 0x6B, 0x65, 0x79, 0x20, 0x52, 0x65,
             0x67, 0x69, 0x73, 0x74, 0x72, 0x61, 0x74, 0x69, 0x6F, 0x6E]
  {
    assert |NO_REGISTRATION_RP| == 20;
  }

  /** The dummy relying parties are "make.me.blink", ".dummy" and "dummy". */
  lemma DummyNames(rp: bytes)
    ensures DummyRp(rp) <==>
              || rp == [0x6D, 0x61, 0x6B, 0x65, 0x2E, 0x6D, 0x65, 0x2E, 0x62, 0x6C, 0x69, 0x6E, 0x6B]
              || rp == [0x2E, 0x64, 0x75, 0x6D, 0x6D, 0x79]
              || rp == [0x64, 0x75, 0x6D, 0x6D, 0x79]
  {
    assert Ascii("make.me.blink") == [0x6D, 0x61, 0x6B, 0x65, 0x2E, 0x6D, 0x65, 0x2E, 0x62, 0x6C, 0x69, 0x6E, 0x6B];
    assert Ascii(".dummy") == [0x2E, 0x64, 0x75, 0x6D, 0x6D, 0x79];
    assert Ascii("dummy") == [0x64, 0x75, 0x6D, 0x6D, 0x79];
  }

  /** The command and status codes of FIDO CTAP 2.1, sections 6 and 8.2. */
  lemma Codes()
    ensures CMD_MAKE_CREDENTIAL == 0x01 && CMD_GET_ASSERTION == 0x02 && CMD_GET_INFO == 0x04 && CTAP2_OK == 0x00
    ensures ERR_OPERATION_DENIED == 0x27 && ERR_UNSUPPORTED_OPTION == 0x2B
    ensures ERR_KEEPALIVE_CANCEL == 0x2D && ERR_NO_CREDENTIALS == 0x2E
  {
  }

  // ---------------------------------------------------------------- appendix A of RFC 8949

  /** Integers in preferred form; a negative one is that of -1 - n with 0x20 added to its first octet. */
  lemma IntegerLayout(n: nat)
    requires n <= MAX_ARG
    ensures var head, tail := if n < 24 then n else if n < 0x100 then 0x18 else if n < 0x1_0000 then 0x19
                              else if n < 0x1_0000_0000 then 0x1A else 0x1B,
                              if n < 24 then [] else if n < 0x100 then [n]
                              else if n < 0x1_0000 then [n / 0x100, n % 0x100]
                              else if n < 0x1_0000_0000 then BigEndian(n, 4) else BigEndian(n, 8);
            Encode(Int(n)) == [head] + tail && Encode(Int(-1 - n)) == [0x20 + head] + tail
  {
    if 24 <= n < 0x100 {
      assert BigEndian(n, 1) == [n];
    } else if 0x100 <= n < 0x1_0000 {
      assert BigEndian(n, 2) == BigEndian(n / 0x100, 1) + [n % 0x100] && BigEndian(n / 0x100, 1) == [n / 0x100];
    }
  }

  /** 1000000000000 in eight octets. */
  lemma Million()
    ensures BigEndian(1000000000000, 8) == [0x00, 0x00, 0x00, 0xE8, 0xD4, 0xA5, 0x10, 0x00]
  {
    assert BigEndian(232, 4) == [0x00, 0x00, 0x00, 0xE8];
    assert BigEndian(59604, 5) == BigEndian(232, 4) + [0xD4];
    assert BigEndian(15258789, 6) == BigEndian(59604, 5) + [0xA5];
    assert BigEndian(3906250000, 7) == BigEndian(15258789, 6) + [0x10];
    assert BigEndian(1000000000000, 8) == BigEndian(3906250000, 7) + [0x00];
  }

  lemma StringExamples()
    ensures Encode(Bytes([])) == [0x40] && Encode(Bytes([0x01, 0x02, 0x03, 0x04])) == [0x44, 0x01, 0x02, 0x03, 0x04]
    ensures Encode(Text([])) == [0x60] && Encode(Text([0x49, 0x45, 0x54, 0x46])) == [0x64, 0x49, 0x45, 0x54, 0x46]
    ensures Encode(Bool(false)) == [0xF4] && Encode(Bool(true)) == [0xF5] && Encode(Null) == [0xF6]
  {
  }

  /** A small container is a head of one octet and its items, or its keys and values in turn. */
  lemma ContainerLayout(items: seq<Value>, entries: seq<Entry>)
    requires |items| < 24 && |entries| < 24
    ensures Encode(Array(items)) == [0x80 + |items|] + EncodeItems(items)
    ensures Encode(Map(entries)) == [0xA0 + |entries|] + EncodeEntries(entries)
    ensures items != [] ==> EncodeItems(items) == Encode(items[0]) + EncodeItems(items[1..])
    ensures entries != [] ==>
              EncodeEntries(entries) == Encode(entries[0].key) + Encode(entries[0].value) + EncodeEntries(entries[1..])
    ensures EncodeItems([]) == [] && EncodeEntries([]) == []
  {
  }

  // ---------------------------------------------------------------- what the program writes into requests

  /** Two text keys of one length, the first before the second in one octet. */
  lemma PairInOrder(p: bytes, x: byte, y: byte, v: Value, w: Value)
    requires |p| < 20 && x < y
    ensures Sort([Entry(Text(p + [x]), v), Entry(Text(p + [y]), w)])
         == [Entry(Text(p + [x]), v), Entry(Text(p + [y]), w)]
  {
    var a, b := Entry(Text(p + [x]), v), Entry(Text(p + [y]), w);
    var head := WriteHead(3, |p| + 1) + p;
    LexCommonPrefix(head, [x], [y]);
    assert KeyOf(a) == head + [x] && KeyOf(b) == head + [y];
    SortedPair(a, b);
  }

  /** Options as forwarded: GetAssertion {"up": true, "uv": ..}, MakeCredential {"rk": true, "uv": true}. */
  lemma OptionsForm(uv: bool)
    ensures GaOptions(uv) == Entry(Int(5), Map([Entry(Text(UP), Bool(true)), Entry(Text(UV), Bool(uv))]))
    ensures MC_OPTIONS == Entry(Int(7), Map([Entry(Text(RK), Bool(true)), Entry(Text(UV), Bool(true))]))
  {
    FieldNames();
    PairInOrder([0x75], 0x70, 0x76, Bool(true), Bool(uv));
    assert [0x75] + [0x70] == UP && [0x75] + [0x76] == UV;
    BeforeUv();
  }

  lemma BeforeUv()
    ensures Sort([Entry(Text(RK), Bool(true)), Entry(Text(UV), Bool(true))])
         == [Entry(Text(RK), Bool(true)), Entry(Text(UV), Bool(true))]
  {
    FieldNames();
    var a, b := Entry(Text(RK), Bool(true)), Entry(Text(UV), Bool(true));
    assert KeyOf(a) == [0x62] + [0x72, 0x6B] && KeyOf(b) == [0x62] + [0x75, 0x76];
    LexCommonPrefix([0x62], [0x72, 0x6B], [0x75, 0x76]);
    SortedPair(a, b);
  }

  /** The one algorithm forwarded for a list that offers ES256: {"alg": -7, "type": "public-key"}. */
  lemma Es256Form()
    ensures ES256_PARAMS == Array([Map([Entry(Text(ALG), Int(-7)), Entry(Text(TYPE), Text(PUBLIC_KEY))])])
  {
    StringSize(ALG);
    StringSize(TYPE);
    SortedPair(Entry(Text(ALG), Int(-7)), Entry(Text(TYPE), Text(PUBLIC_KEY)));
  }

  /** A list offers ES256 exactly if one of its maps has an entry "alg" with value -7. */
  lemma OffersExactly(v: Value)
    ensures OffersEs256(v) <==>
            && v.Array?
            && exists i | 0 <= i < |v.items| :: v.items[i].Map? && Entry(Text(ALG), Int(-7)) in v.items[i].entries
  {
    if OffersEs256(v) {
      var p :| p in v.items && p.Map? && ES256_FIELD in p.entries;
      var i :| 0 <= i < |v.items| && v.items[i] == p;
    }
  }

  /** A request that is too short, or does not decode to a map, is forwarded as it is. */
  lemma PassedThrough(raw: bytes)
    requires |raw| <= 1 || Decode(raw[1..]).Fail? || !Decode(raw[1..]).value.Map?
    ensures GaPayload(raw) == raw && McPayload(raw) == raw
  {
  }
}
