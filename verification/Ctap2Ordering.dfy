/**
 Which maps of a forwarded request are in canonical order. The doc comments of src/ctap2.rs say
 that all of them are; the code orders those it rebuilds and copies the others as they came.
 */
module Ctap2Ordering {
  import opened Bytes
  import opened Folds
  import opened Cbor
  import opened CborOrder
  import opened Ctap2
  import opened Ctap2Wire

  /** Every map in the value, at any depth, is in the code's key order. */
  predicate Ordered(v: Value)
  {
    match v
    case Array(items) => forall x | x in items :: Ordered(x)
    case Map(entries) => Sorted(entries) && forall e | e in entries :: Ordered(e.key) && Ordered(e.value)
    case _ => true
  }

  predicate EntryOrdered(e: Entry) { Ordered(e.key) && Ordered(e.value) }

  predicate All<T(==)>(p: T -> bool, s: seq<T>) { forall x | x in s :: p(x) }

  lemma {:induction false} AllFlatMap<A, B>(p: B -> bool, f: A -> seq<B>, s: seq<A>)
    ensures All(p, FlatMap(f, s)) <==> forall x | x in s :: All(p, f(x))
  {
    if s == [] {
    } else {
      AllFlatMap(p, f, s[..|s| - 1]);
      assert s == s[..|s| - 1] + [s[|s| - 1]];
      assert FlatMap(f, s) == FlatMap(f, s[..|s| - 1]) + f(s[|s| - 1]);
    }
  }

  lemma OneOrdered(key: Value, v: Value)
    requires key.Int?
    ensures All(EntryOrdered, [Entry(key, v)]) <==> Ordered(v)
    ensures All(Ordered, [v]) <==> Ordered(v)
  {
    assert Entry(key, v) in [Entry(key, v)] && v in [v];
  }

  lemma SortedMapOrdered(s: seq<Entry>)
    ensures Ordered(Map(Sort(s))) <==> All(EntryOrdered, s)
  {
    SortSorted(s);
    SortMembers(s);
  }

  /** A rewritten and sorted map is ordered when each rewritten entry is. */
  lemma RewrittenOrdered(g: Entry -> seq<Entry>, carried: Entry -> seq<Value>, entries: seq<Entry>, added: seq<Entry>)
    requires forall e | e in entries :: All(EntryOrdered, g(e)) <==> All(Ordered, carried(e))
    requires All(EntryOrdered, added)
    ensures Ordered(Map(Sort(FlatMap(g, entries) + added))) <==> All(Ordered, FlatMap(carried, entries))
  {
    SortedMapOrdered(FlatMap(g, entries) + added);
    AllFlatMap(EntryOrdered, g, entries);
    AllFlatMap(Ordered, carried, entries);
  }

  lemma PairOrdered(a: Entry, b: Entry)
    requires a.key.Text? && b.key.Text?
    ensures Ordered(Map(Sort([a, b]))) <==> Ordered(a.value) && Ordered(b.value)
  {
    SortedMapOrdered([a, b]);
    assert a in [a, b] && b in [a, b];
  }

  // ---------------------------------------------------------------- descriptors

  /** The values a sanitised descriptor takes from the original. */
  function DescriptorCarries(v: Value): seq<Value>
  {
    if v.Map? && LastSome(IdValueOf, v.entries).Some?
    then ToSeq(LastSome(IdValueOf, v.entries)) + ToSeq(LastSome(TypeValueOf, v.entries))
    else []
  }

  lemma DescriptorOrdered(v: Value)
    ensures All(Ordered, SanitizedItem(v)) <==> All(Ordered, DescriptorCarries(v))
  {
    if v.Map? && LastSome(IdValueOf, v.entries).Some? {
      var id, credType := LastSome(IdValueOf, v.entries).value, LastSome(TypeValueOf, v.entries);
      PairOrdered(Entry(Text(ID), id), Entry(Text(TYPE), credType.GetOr(Text(PUBLIC_KEY))));
      assert SanitizedItem(v) == [Descriptor(id, credType.GetOr(Text(PUBLIC_KEY)))];
      assert id in DescriptorCarries(v) && (credType.Some? ==> credType.value in DescriptorCarries(v));
    }
  }

  function ListCarries(v: Value): seq<Value>
  {
    if v.Array? then FlatMap(DescriptorCarries, v.items) else []
  }

  lemma ArrayOrdered(items: seq<Value>)
    ensures Ordered(Array(FlatMap(SanitizedItem, items))) <==> All(Ordered, FlatMap(DescriptorCarries, items))
  {
    forall d | d in items ensures All(Ordered, SanitizedItem(d)) <==> All(Ordered, DescriptorCarries(d)) {
      DescriptorOrdered(d);
    }
    AllFlatMap(Ordered, SanitizedItem, items);
    AllFlatMap(Ordered, DescriptorCarries, items);
    assert Ordered(Array(FlatMap(SanitizedItem, items))) <==> All(Ordered, FlatMap(SanitizedItem, items));
  }

  lemma ListOrdered(key: Value, v: Value)
    requires key.Int?
    ensures All(EntryOrdered, SanitizeList(key, v)) <==> All(Ordered, ListCarries(v))
  {
    if v.Array? {
      ArrayOrdered(v.items);
      OneOrdered(key, Array(FlatMap(SanitizedItem, v.items)));
    }
  }

  // ---------------------------------------------------------------- GetAssertion

  /** What the forwarded GetAssertion request takes from an entry unseen. */
  function GaCarries(e: Entry): seq<Value>
  {
    match e.key
    case Int(n) => if n == 1 || n == 2 then [e.value] else if n == 3 then ListCarries(e.value) else []
    case _ => []
  }

  lemma GaRewriteOrdered(e: Entry)
    ensures All(EntryOrdered, GaRewrite(e)) <==> All(Ordered, GaCarries(e))
  {
    if e.key.Int? {
      ListOrdered(e.key, e.value);
      OneOrdered(e.key, e.value);
    }
  }

  lemma OptionsOrdered(key: int, a: bytes, b: bytes, x: bool, y: bool)
    ensures All(EntryOrdered, [Entry(Int(key), Map(Sort([Entry(Text(a), Bool(x)), Entry(Text(b), Bool(y))])))])
  {
    PairOrdered(Entry(Text(a), Bool(x)), Entry(Text(b), Bool(y)));
  }

  /** The maps of a forwarded GetAssertion request are all ordered exactly when those it copies are. */
  lemma GetAssertionOrdered(raw: bytes)
    requires IsSlice(raw) && RequestMap(raw).Some?
    ensures RequestMap(GaPayload(raw)).Some?
    ensures Ordered(Map(RequestMap(GaPayload(raw)).value)) <==> All(Ordered, FlatMap(GaCarries, RequestMap(raw).value))
  {
    var entries := RequestMap(raw).value;
    GaReadBack(raw);
    forall e | e in entries ensures All(EntryOrdered, GaRewrite(e)) <==> All(Ordered, GaCarries(e)) {
      GaRewriteOrdered(e);
    }
    var uv := LastSome(UvIn, entries).GetOr(true);
    OptionsOrdered(5, UP, UV, true, uv);
    RewrittenOrdered(GaRewrite, GaCarries, entries, [GaOptions(uv)]);
  }

  // ---------------------------------------------------------------- MakeCredential

  /** The fields of a record that are copied, key and value. */
  function FieldCarries(other: Entry -> seq<Entry>, e: Entry): seq<Value>
  {
    if other(e) == [] then [] else [e.key, e.value]
  }

  lemma FieldOrdered(other: Entry -> seq<Entry>, e: Entry)
    requires other(e) == [] || other(e) == [e]
    ensures All(EntryOrdered, other(e)) <==> All(Ordered, FieldCarries(other, e))
  {
    assert other(e) != [] ==> e in other(e) && e.key in FieldCarries(other, e) && e.value in FieldCarries(other, e);
  }

  function RpCarries(rp: seq<Entry>): seq<Value> { FlatMap(e => FieldCarries(RpOther, e), rp) }

  function UserCarries(user: seq<Entry>): seq<Value>
  {
    ToSeq(LastSome(IdValueOf, user)) + FlatMap(e => FieldCarries(UserOther, e), user)
  }

  lemma RecordOrdered(own: seq<Entry>, other: Entry -> seq<Entry>, s: seq<Entry>)
    requires forall e: Entry :: other(e) == [] || other(e) == [e]
    ensures Ordered(Map(Sort(own + FlatMap(other, s))))
       <==> All(EntryOrdered, own) && All(Ordered, FlatMap(e => FieldCarries(other, e), s))
  {
    var carried := e => FieldCarries(other, e);
    SortedMapOrdered(own + FlatMap(other, s));
    forall e | e in s ensures All(EntryOrdered, other(e)) <==> All(Ordered, carried(e)) { FieldOrdered(other, e); }
    AllFlatMap(EntryOrdered, other, s);
    AllFlatMap(Ordered, carried, s);
  }

  lemma RpOrdered(rp: seq<Entry>)
    ensures Ordered(Map(CleanRp(rp))) <==> All(Ordered, RpCarries(rp))
  {
    RecordOrdered([Entry(Text(ID), Text(RpId(rp))), Entry(Text(NAME), Text(RpName(rp)))], RpOther, rp);
  }

  /** A name record is ordered when its id is; an id made from a name always is. */
  lemma NamesOrdered(a: bytes, b: bytes, c: bytes, given: Option<Value>, x: bytes, y: bytes, id: Value)
    requires id == given.GetOr(Bytes(x))
    ensures All(EntryOrdered, [Entry(Text(a), id), Entry(Text(b), Text(x)), Entry(Text(c), Text(y))])
       <==> All(Ordered, ToSeq(given))
  {
    var own := [Entry(Text(a), id), Entry(Text(b), Text(x)), Entry(Text(c), Text(y))];
    assert own[0] in own && (given.Some? ==> given.value in ToSeq(given));
  }

  lemma UserOrdered(user: seq<Entry>)
    ensures Ordered(Map(CleanUser(user))) <==> All(Ordered, UserCarries(user))
  {
    var id, name, display := UserId(user), UserName(user), UserDisplayName(user);
    NamesOrdered(ID, NAME, DISPLAY_NAME, LastSome(IdValueOf, user), name, display, id);
    RecordOrdered([Entry(Text(ID), id), Entry(Text(NAME), Text(name)), Entry(Text(DISPLAY_NAME), Text(display))],
                  UserOther, user);
  }

  /** What the forwarded MakeCredential request takes from an entry unseen. */
  function McCarries(e: Entry): seq<Value>
  {
    match e.key
    case Int(n) =>
      if n == 1 then [e.value]
      else if n == 2 then RpCarries(EntriesOf(e.value))
      else if n == 3 then UserCarries(EntriesOf(e.value))
      else if n == 4 then (if OffersEs256(e.value) then [] else [e.value])
      else if n == 5 then ListCarries(e.value)
      else []
    case _ => []
  }

  lemma Es256Ordered()
    ensures Ordered(ES256_PARAMS) && All(EntryOrdered, [MC_OPTIONS])
  {
    PairOrdered(ES256_FIELD, Entry(Text(TYPE), Text(PUBLIC_KEY)));
    OptionsOrdered(7, RK, UV, true, true);
  }

  lemma RpEntryOrdered(key: Value, v: Value)
    requires key == Int(2)
    ensures All(EntryOrdered, McRewrite(Entry(key, v))) <==> All(Ordered, McCarries(Entry(key, v)))
  {
    RpOrdered(EntriesOf(v));
    OneOrdered(key, Map(CleanRp(EntriesOf(v))));
  }

  lemma UserEntryOrdered(key: Value, v: Value)
    requires key == Int(3)
    ensures All(EntryOrdered, McRewrite(Entry(key, v))) <==> All(Ordered, McCarries(Entry(key, v)))
  {
    UserOrdered(EntriesOf(v));
    OneOrdered(key, Map(CleanUser(EntriesOf(v))));
  }

  lemma ParamsEntryOrdered(key: Value, v: Value)
    requires key == Int(4)
    ensures All(EntryOrdered, McRewrite(Entry(key, v))) <==> All(Ordered, McCarries(Entry(key, v)))
  {
    Es256Ordered();
    OneOrdered(key, if OffersEs256(v) then ES256_PARAMS else v);
  }

  lemma McRewriteOrdered(e: Entry)
    ensures All(EntryOrdered, McRewrite(e)) <==> All(Ordered, McCarries(e))
  {
    match e.key
    case Int(n) =>
      if n == 1 {
        OneOrdered(e.key, e.value);
      } else if n == 2 {
        RpEntryOrdered(e.key, e.value);
      } else if n == 3 {
        UserEntryOrdered(e.key, e.value);
      } else if n == 4 {
        ParamsEntryOrdered(e.key, e.value);
      } else if n == 5 {
        ListOrdered(e.key, e.value);
      } else if n == 7 {
        Es256Ordered();
      }
    case _ =>
  }

  /** The maps of a forwarded MakeCredential request are all ordered exactly when those it copies are. */
  lemma MakeCredentialOrdered(raw: bytes)
    requires IsSlice(raw) && RequestMap(raw).Some?
    ensures RequestMap(McPayload(raw)).Some?
    ensures Ordered(Map(RequestMap(McPayload(raw)).value)) <==> All(Ordered, FlatMap(McCarries, RequestMap(raw).value))
  {
    var entries := RequestMap(raw).value;
    McReadBack(raw);
    Es256Ordered();
    forall e | e in entries ensures All(EntryOrdered, McRewrite(e)) <==> All(Ordered, McCarries(e)) {
      McRewriteOrdered(e);
    }
    RewrittenOrdered(McRewrite, McCarries, entries, McInjected(entries));
  }

  /** An RS256-only algorithm list with "type" before "alg". */
  const TYPE_FIRST := Map([Entry(Text(TYPE), Text(PUBLIC_KEY)), Entry(Text(ALG), Int(-257))])
  const RS256_ENTRY := Entry(Int(4), Array([TYPE_FIRST]))

  lemma TypeFirstUnordered()
    ensures !Ordered(TYPE_FIRST)
  {
    var fields := TYPE_FIRST.entries;
    ShortLexTotal(KeyOf(fields[0]), KeyOf(fields[1]));
    TypeIsNotAlg();
  }

  lemma Rs256Carried()
    ensures !All(Ordered, FlatMap(McCarries, [RS256_ENTRY]))
  {
    TypeFirstUnordered();
    FlatMapOne(McCarries, RS256_ENTRY);
    assert TYPE_FIRST in RS256_ENTRY.value.items;
    assert RS256_ENTRY.value in FlatMap(McCarries, [RS256_ENTRY]);
  }

  lemma Rs256Request()
    ensures WellFormed(Map([RS256_ENTRY])) && |Encode(Map([RS256_ENTRY]))| <= 100
  {
    FieldNamesWellFormed();
    PairWellFormed(Text(TYPE), Text(PUBLIC_KEY), Text(ALG), Int(-257));
    SingletonWellFormed(Text(ID), TYPE_FIRST);
    SingletonWellFormed(Int(4), Array([TYPE_FIRST]));
    SmallSize(RS256_ENTRY, RS256_ENTRY, TYPE_FIRST);
    SmallSize(TYPE_FIRST.entries[0], TYPE_FIRST.entries[1], Null);
    EntrySize(Int(4), Array([TYPE_FIRST]));
    EntrySize(Text(TYPE), Text(PUBLIC_KEY));
    EntrySize(Text(ALG), Int(-257));
    StringSize(TYPE);
    StringSize(ALG);
    StringSize(PUBLIC_KEY);
    assert |Encode(Int(4))| == 1 && |Encode(Int(-257))| == 3;
  }

  /** A request with such a list is forwarded with it as it came. */
  lemma CopiedMapsStayUnordered()
    ensures var data := [CMD_MAKE_CREDENTIAL] + Encode(Map([RS256_ENTRY]));
            RequestMap(McPayload(data)).Some? && !Ordered(Map(RequestMap(McPayload(data)).value))
  {
    var data := [CMD_MAKE_CREDENTIAL] + Encode(Map([RS256_ENTRY]));
    Rs256Carried();
    Rs256Request();
    ReadBack(CMD_MAKE_CREDENTIAL, [RS256_ENTRY]);
    MakeCredentialOrdered(data);
  }

  lemma TypeIsNotAlg()
    ensures Encode(Text(TYPE)) != Encode(Text(ALG))
  {
    AsciiText("type");
    AsciiText("alg");
    EncodeInjective(Text(TYPE), Text(ALG));
  }

}
