/** The rewritten requests can be written and read back: no length outgrows a CBOR head. */
module Ctap2Wire {
  import opened Bytes
  import opened Folds
  import opened Cbor
  import opened CborOrder
  import opened Ctap2

  predicate EntryFits(e: Entry, n: nat) { Fits(e.key, n) && Fits(e.value, n) }

  predicate EntryWellFormed(e: Entry) { WellFormed(e.key) && WellFormed(e.value) }

  lemma RequestFits(raw: bytes)
    requires RequestMap(raw).Some?
    ensures |RequestMap(raw).value| < |raw|
    ensures forall e | e in RequestMap(raw).value :: EntryFits(e, |raw|) && EntryFits(e, |raw| - 1)
  {
    forall e | e in RequestMap(raw).value ensures EntryFits(e, |raw|) {
      FitsMonotone(e.key, |raw| - 1, |raw|);
      FitsMonotone(e.value, |raw| - 1, |raw|);
    }
  }

  lemma EntryFitsWellFormed(e: Entry, n: nat)
    requires EntryFits(e, n) && n <= MAX_ARG
    ensures EntryWellFormed(e)
  {
    FitsMonotone(e.key, n, MAX_ARG);
    FitsMonotone(e.value, n, MAX_ARG);
  }

  lemma SortedMapWellFormed(s: seq<Entry>)
    requires |s| <= MAX_ARG && forall e | e in s :: EntryWellFormed(e)
    ensures WellFormed(Map(Sort(s)))
  {
    SortMembers(s);
    forall e | e in Sort(s) ensures Fits(e.key, MAX_ARG) && Fits(e.value, MAX_ARG) {
      assert EntryWellFormed(e);
    }
  }

  lemma PairWellFormed(k: Value, v: Value, k': Value, v': Value)
    requires WellFormed(k) && WellFormed(v) && WellFormed(k') && WellFormed(v')
    ensures WellFormed(Map(Sort([Entry(k, v), Entry(k', v')])))
  {
    SortedMapWellFormed([Entry(k, v), Entry(k', v')]);
  }

  lemma SingletonWellFormed(k: Value, v: Value)
    requires WellFormed(k) && WellFormed(v)
    ensures WellFormed(Map([Entry(k, v)])) && WellFormed(Array([v])) && WellFormed(Array([]))
  {
  }

  lemma TripleWellFormed(a: Entry, b: Entry, c: Entry)
    requires EntryWellFormed(a) && EntryWellFormed(b) && EntryWellFormed(c)
    ensures WellFormed(Map([a, b, c]))
  {
    ThreeWellFormed(a, b, c);
    assert forall e | e in [a, b, c] :: EntryWellFormed(e);
  }

  lemma NameWellFormed(s: string)
    requires |s| < 100
    ensures WellFormed(Text(Ascii(s)))
  {
    AsciiText(s);
  }

  lemma FieldNamesWellFormed()
    ensures WellFormed(Text(ID)) && WellFormed(Text(TYPE)) && WellFormed(Text(NAME))
    ensures WellFormed(Text(DISPLAY_NAME)) && WellFormed(Text(ALG)) && WellFormed(Text(PUBLIC_KEY))
    ensures WellFormed(Text(UP)) && WellFormed(Text(UV)) && WellFormed(Text(RK))
    ensures WellFormed(Text(WEBAUTHN)) && WellFormed(Text(USER))
  {
    NameWellFormed("id"); NameWellFormed("type"); NameWellFormed("name");
    NameWellFormed("displayName"); NameWellFormed("alg"); NameWellFormed("public-key");
    NameWellFormed("up"); NameWellFormed("uv"); NameWellFormed("rk");
    NameWellFormed("webauthn"); NameWellFormed("user");
  }

  // ---------------------------------------------------------------- descriptors

  lemma DescriptorWellFormed(id: Value, credType: Value)
    requires WellFormed(id) && WellFormed(credType)
    ensures WellFormed(Descriptor(id, credType))
  {
    FieldNamesWellFormed();
    PairWellFormed(Text(ID), id, Text(TYPE), credType);
  }

  lemma SanitizedDescriptorWellFormed(v: Value)
    requires WellFormed(v)
    ensures SanitizeDescriptor(v).Some? ==> WellFormed(SanitizeDescriptor(v).value)
  {
    if v.Map? && LastSome(IdValueOf, v.entries).Some? {
      FieldNamesWellFormed();
      var e := LastSomeMember(IdValueOf, v.entries);
      var t := LastSome(TypeValueOf, v.entries);
      if t.Some? {
        var e' := LastSomeMember(TypeValueOf, v.entries);
      }
      DescriptorWellFormed(e.value, t.GetOr(Text(PUBLIC_KEY)));
    }
  }

  lemma SanitizedListWellFormed(key: Value, v: Value)
    requires WellFormed(key) && WellFormed(v)
    ensures forall x | x in SanitizeList(key, v) :: EntryWellFormed(x)
  {
    if v.Array? {
      var l := FlatMap(SanitizedItem, v.items);
      FlatMapSize(SanitizedItem, v.items);
      forall y | y in l ensures WellFormed(y) {
        var x := FlatMapMember(SanitizedItem, v.items, y);
        SanitizedDescriptorWellFormed(x);
      }
      assert WellFormed(Array(l));
    }
  }

  // ---------------------------------------------------------------- GetAssertion

  lemma GaOptionsWellFormed(uv: bool)
    ensures EntryWellFormed(GaOptions(uv))
  {
    FieldNamesWellFormed();
    PairWellFormed(Text(UP), Bool(true), Text(UV), Bool(uv));
  }

  lemma GaEntriesWellFormed(entries: seq<Entry>)
    requires |entries| < MAX_ARG && forall e | e in entries :: EntryWellFormed(e)
    ensures WellFormed(Map(GaEntries(entries)))
  {
    var kept, options := FlatMap(GaRewrite, entries), GaOptions(LastSome(UvIn, entries).GetOr(true));
    FlatMapSize(GaRewrite, entries);
    forall x | x in kept ensures EntryWellFormed(x) {
      var e := FlatMapMember(GaRewrite, entries, x);
      SanitizedListWellFormed(e.key, e.value);
    }
    GaOptionsWellFormed(LastSome(UvIn, entries).GetOr(true));
    SortedMapWellFormed(kept + [options]);
  }

  /** The sanitised GetAssertion request reads back as the rewritten entries. */
  lemma GaReadBack(raw: bytes)
    requires IsSlice(raw) && RequestMap(raw).Some?
    ensures RequestMap(GaPayload(raw)) == Some(GaEntries(RequestMap(raw).value))
    ensures GaPayload(raw)[0] == raw[0]
  {
    var entries := RequestMap(raw).value;
    RequestFits(raw);
    forall e | e in entries ensures EntryWellFormed(e) { EntryFitsWellFormed(e, |raw|); }
    GaEntriesWellFormed(entries);
    ReadBack(raw[0], GaEntries(entries));
  }

  lemma ReadBack(command: byte, entries: seq<Entry>)
    requires WellFormed(Map(entries))
    ensures RequestMap([command] + Encode(Map(entries))) == Some(entries)
  {
    var s := Encode(Map(entries));
    RoundTrip(Map(entries), []);
    assert s + [] == s && ([command] + s)[1..] == s;
  }

  // ---------------------------------------------------------------- MakeCredential

  lemma LastValueWellFormed(f: Entry -> Option<Value>, entries: seq<Entry>)
    requires forall e | e in entries :: EntryWellFormed(e)
    requires forall e: Entry :: f(e).Some? ==> f(e).value == e.value
    ensures LastSome(f, entries).Some? ==> WellFormed(LastSome(f, entries).value)
  {
    if LastSome(f, entries).Some? {
      var e := LastSomeMember(f, entries);
    }
  }

  lemma CleanRpWellFormed(rp: seq<Entry>)
    requires |rp| <= MAX_ARG - 2 && forall e | e in rp :: EntryWellFormed(e)
    ensures WellFormed(Map(CleanRp(rp)))
  {
    FieldNamesWellFormed();
    RpTextsWellFormed(rp);
    OthersWellFormed([Entry(Text(ID), Text(RpId(rp))), Entry(Text(NAME), Text(RpName(rp)))], RpOther, rp);
  }

  lemma RpTextsWellFormed(rp: seq<Entry>)
    requires forall e | e in rp :: EntryWellFormed(e)
    ensures WellFormed(Text(RpId(rp))) && WellFormed(Text(RpName(rp)))
  {
    FieldNamesWellFormed();
    LastValueWellFormed(IdValueOf, rp);
    LastValueWellFormed(NameValueOf, rp);
  }

  lemma OthersWellFormed(own: seq<Entry>, other: Entry -> seq<Entry>, entries: seq<Entry>)
    requires |own| + |entries| <= MAX_ARG
    requires (forall e | e in own :: EntryWellFormed(e)) && (forall e | e in entries :: EntryWellFormed(e))
    requires forall e: Entry :: other(e) == [] || other(e) == [e]
    ensures WellFormed(Map(Sort(own + FlatMap(other, entries))))
  {
    FlatMapSize(other, entries);
    forall x | x in FlatMap(other, entries) ensures EntryWellFormed(x) {
      var e := FlatMapMember(other, entries, x);
    }
    SortedMapWellFormed(own + FlatMap(other, entries));
  }

  lemma CleanUserWellFormed(user: seq<Entry>)
    requires |user| <= MAX_ARG - 3 && forall e | e in user :: EntryWellFormed(e)
    ensures WellFormed(Map(CleanUser(user)))
  {
    FieldNamesWellFormed();
    UserTextsWellFormed(user);
    AccountWellFormed(Entry(Text(ID), UserId(user)), Entry(Text(NAME), Text(UserName(user))),
                      Entry(Text(DISPLAY_NAME), Text(UserDisplayName(user))), user);
  }

  lemma AccountWellFormed(id: Entry, name: Entry, display: Entry, user: seq<Entry>)
    requires EntryWellFormed(id) && EntryWellFormed(name) && EntryWellFormed(display)
    requires |user| <= MAX_ARG - 3 && forall e | e in user :: EntryWellFormed(e)
    ensures WellFormed(Map(Sort([id, name, display] + FlatMap(UserOther, user))))
  {
    ThreeWellFormed(id, name, display);
    OthersWellFormed([id, name, display], UserOther, user);
  }

  lemma ThreeWellFormed(a: Entry, b: Entry, c: Entry)
    requires EntryWellFormed(a) && EntryWellFormed(b) && EntryWellFormed(c)
    ensures forall e | e in [a, b, c] :: EntryWellFormed(e)
  {
  }

  lemma UserTextsWellFormed(user: seq<Entry>)
    requires forall e | e in user :: EntryWellFormed(e)
    ensures WellFormed(Text(UserName(user))) && WellFormed(Text(UserDisplayName(user)))
    ensures WellFormed(UserId(user))
  {
    FieldNamesWellFormed();
    LastValueWellFormed(IdValueOf, user);
    LastValueWellFormed(NameValueOf, user);
    LastValueWellFormed(DisplayNameValueOf, user);
  }

  lemma Es256WellFormed()
    ensures WellFormed(ES256_PARAMS) && EntryWellFormed(MC_OPTIONS)
  {
    FieldNamesWellFormed();
    PairWellFormed(Text(ALG), Int(-7), Text(TYPE), Text(PUBLIC_KEY));
    PairWellFormed(Text(RK), Bool(true), Text(UV), Bool(true));
  }

  lemma McRewriteWellFormed(e: Entry, n: nat)
    requires EntryFits(e, n) && n <= MAX_ARG - 3
    ensures forall x | x in McRewrite(e) :: EntryWellFormed(x)
  {
    EntryFitsWellFormed(e, n);
    match e.key
    case Int(k) =>
      if k == 2 || k == 3 {
        NestedMapFits(e.value, n);
        CleanRpWellFormed(EntriesOf(e.value));
        CleanUserWellFormed(EntriesOf(e.value));
      } else if k == 4 || k == 7 {
        Es256WellFormed();
      } else if k == 5 {
        SanitizedListWellFormed(e.key, e.value);
      }
    case _ =>
  }

  lemma NestedMapFits(v: Value, n: nat)
    requires Fits(v, n) && n <= MAX_ARG
    ensures |EntriesOf(v)| <= n && forall f | f in EntriesOf(v) :: EntryWellFormed(f)
  {
    forall f | f in EntriesOf(v) ensures EntryWellFormed(f) { EntryFitsWellFormed(f, n); }
  }

  lemma McEntriesWellFormed(entries: seq<Entry>, n: nat)
    requires |entries| <= n <= MAX_ARG - 3 && forall e | e in entries :: EntryFits(e, n)
    ensures WellFormed(Map(McEntries(entries)))
  {
    var kept := FlatMap(McRewrite, entries);
    FlatMapSize(McRewrite, entries);
    forall x | x in kept ensures EntryWellFormed(x) {
      var e := FlatMapMember(McRewrite, entries, x);
      McRewriteWellFormed(e, n);
    }
    Es256WellFormed();
    SortedMapWellFormed(kept + McInjected(entries));
  }

  lemma McReadBack(raw: bytes)
    requires IsSlice(raw) && RequestMap(raw).Some?
    ensures RequestMap(McPayload(raw)) == Some(McEntries(RequestMap(raw).value))
    ensures McPayload(raw)[0] == raw[0]
  {
    var entries := RequestMap(raw).value;
    RequestFits(raw);
    McEntriesWellFormed(entries, |raw|);
    ReadBack(raw[0], McEntries(entries));
  }

  // ---------------------------------------------------------------- the size of small requests

  /** Containers of few elements have a head of one octet. */
  lemma SmallSize(a: Entry, b: Entry, v: Value)
    ensures |Encode(Map([a]))| == 1 + |EncodeEntry(a)|
    ensures |Encode(Map([a, b]))| == 1 + |EncodeEntry(a)| + |EncodeEntry(b)|
    ensures |Encode(Array([v]))| == 1 + |Encode(v)|
  {
    assert [a][1..] == [] && [a, b][1..] == [b] && [v][1..] == [];
    assert EncodeEntries([a]) == EncodeEntry(a) + EncodeEntries([]);
    assert EncodeEntries([b]) == EncodeEntry(b) + EncodeEntries([]);
    assert EncodeEntries([a, b]) == EncodeEntry(a) + EncodeEntries([b]);
    assert EncodeItems([v]) == Encode(v) + EncodeItems([]);
  }

  lemma StringSize(s: bytes)
    requires |s| < 24
    ensures |Encode(Text(s))| == |Encode(Bytes(s))| == 1 + |s|
  {
  }

  lemma EntrySize(k: Value, v: Value)
    ensures |EncodeEntry(Entry(k, v))| == |Encode(k)| + |Encode(v)|
  {
  }

  lemma BytesSize(b: bytes)
    ensures |Encode(Bytes(b))| == 1 + ArgWidth(|b|) + |b|
  {
  }

  lemma TripleSize(a: Entry, b: Entry, c: Entry)
    ensures |Encode(Map([a, b, c]))| == 1 + |EncodeEntry(a)| + |EncodeEntry(b)| + |EncodeEntry(c)|
  {
    assert [a, b, c][1..] == [b, c] && [b, c][1..] == [c] && [c][1..] == [];
    assert EncodeEntries([a, b, c]) == EncodeEntry(a) + EncodeEntries([b, c]);
    assert EncodeEntries([b, c]) == EncodeEntry(b) + EncodeEntries([c]);
    assert EncodeEntries([c]) == EncodeEntry(c) + EncodeEntries([]);
  }

  lemma SmallInt(n: nat)
    requires n < 24
    ensures |Encode(Int(n))| == 1
  {
  }
}
