/**
 What the phone is sent, key by key: for each key of the forwarded map, the values it has in terms of
 the entries of the request alone. Relying party and user are in Ctap2Account.
 */
module Ctap2Forwarding {
  import opened Bytes
  import opened Folds
  import opened Cbor
  import opened CborOrder
  import opened KeyFolds
  import opened Ctap2
  import opened Ctap2Wire
  import opened Ctap2Idempotence
  import opened Ctap2Canonical
  import opened Ctap2Registration
  import opened Ctap2Octets
  import opened Ctap2Reading
  import opened Ctap2Account

  // ---------------------------------------------------------------- descriptors and their lists

  /** A map with an "id" of whatever kind. */
  predicate Identified(d: Value) { d.Map? && LastValue(d.entries, ID).Some? }

  /** Its last "id" and its last "type", or "public-key" if it has none. */
  function Bare(d: Value): Value
    requires Identified(d)
  {
    Map([Entry(Text(ID), LastValue(d.entries, ID).value),
         Entry(Text(TYPE), LastValue(d.entries, TYPE).GetOr(Text(PUBLIC_KEY)))])
  }

  /** The descriptors of a list that have an "id", in order. */
  function BareItems(list: seq<Value>): seq<Value>
  {
    if list == [] then []
    else
      var last := list[|list| - 1];
      BareItems(list[..|list| - 1]) + if Identified(last) then [Bare(last)] else []
  }

  /** The lists that have such descriptors, in order. */
  function BareLists(lists: seq<Entry>): seq<Entry>
  {
    if lists == [] then []
    else
      var before, e := BareLists(lists[..|lists| - 1]), lists[|lists| - 1];
      if e.value.Array? && exists d | d in e.value.items :: Identified(d)
      then before + [Entry(e.key, Array(BareItems(e.value.items)))]
      else before
  }

  lemma ItemBare(d: Value)
    ensures SanitizedItem(d) == if Identified(d) then [Bare(d)] else []
  {
    if d.Map? {
      LastIsLast(IdValueOf, d.entries, ID);
      LastIsLast(TypeValueOf, d.entries, TYPE);
      if Identified(d) {
        DescriptorForm(LastValue(d.entries, ID).value, LastValue(d.entries, TYPE).GetOr(Text(PUBLIC_KEY)));
      }
    }
  }

  lemma {:induction false} ItemsBare(list: seq<Value>)
    ensures FlatMap(SanitizedItem, list) == BareItems(list)
    ensures BareItems(list) != [] <==> exists d | d in list :: Identified(d)
  {
    if list == [] {
    } else {
      var init, last := list[..|list| - 1], list[|list| - 1];
      ItemsBare(init);
      ItemBare(last);
      assert forall d :: d in list <==> d in init || d == last;
    }
  }

  lemma {:induction false} ListsBare(g: Entry -> seq<Entry>, lists: seq<Entry>)
    requires forall e | e in lists :: g(e) == SanitizeList(e.key, e.value)
    ensures FlatMap(g, lists) == BareLists(lists)
  {
    if lists == [] {
    } else {
      var e := lists[|lists| - 1];
      ListsBare(g, lists[..|lists| - 1]);
      if e.value.Array? {
        ItemsBare(e.value.items);
      }
    }
  }

  // ---------------------------------------------------------------- GetAssertion

  /** The entries of a request, and of what is forwarded for it, under a small integer key. */
  function Under(n: nat, entries: seq<Entry>): seq<Entry> { WithKey(Encode(Int(n)), entries) }

  lemma ListsUnder(n: nat, g: Entry -> seq<Entry>, was: seq<Entry>, added: seq<Entry>)
    requires n < 24 && KeysWellFormed(was) && KeepsKeys(g) && forall x | x in added :: KeyOf(x) != Encode(Int(n))
    requires forall e | e in was && e.key == Int(n) :: g(e) == SanitizeList(e.key, e.value)
    ensures Under(n, Sort(FlatMap(g, was) + added)) == BareLists(Under(n, was))
  {
    KeyAfterRewrite(g, Encode(Int(n)), was, added);
    OnlyIntKey(n, was);
    ListsBare(g, Under(n, was));
  }

  lemma AllowListsForwarded(was: seq<Entry>)
    requires KeysWellFormed(was)
    ensures Under(3, GaEntries(was)) == BareLists(Under(3, was))
  {
    GaKeepsKeys();
    EncodeInjective(Int(3), Int(5));
    ListsUnder(3, GaRewrite, was, [GaOptions(LastSome(UvIn, was).GetOr(true))]);
  }

  /**
   Every GetAssertion request that decodes is forwarded with its relying party ids and hashes as
   they came, and its allow lists with bare descriptors, those without an "id" left out.
   */
  lemma GetAssertionForwarded(raw: bytes)
    requires IsSlice(raw) && RequestMap(raw).Some?
    ensures RequestMap(GaPayload(raw)).Some? && GaPayload(raw)[0] == raw[0]
    ensures var was, now := RequestMap(raw).value, RequestMap(GaPayload(raw)).value;
            && Under(1, now) == Under(1, was)
            && Under(2, now) == Under(2, was)
            && Under(3, now) == BareLists(Under(3, was))
  {
    var was := RequestMap(raw).value;
    GaReadBack(raw);
    RequestWellFormed(raw);
    GaKeeps(1, was);
    GaKeeps(2, was);
    AllowListsForwarded(was);
  }

  // ---------------------------------------------------------------- MakeCredential

  /** A list that offers ES256 becomes ES256 alone, {"alg": -7, "type": "public-key"}; any other is kept. */
  function Algorithms(v: Value): Value
  {
    if v.Array? && exists p | p in v.items :: p.Map? && Entry(Text(ALG), Int(-7)) in p.entries
    then Array([Map([Entry(Text(ALG), Int(-7)), Entry(Text(TYPE), Text(PUBLIC_KEY))])])
    else v
  }

  lemma AlgorithmsForwarded(was: seq<Entry>)
    requires forall e | e in was :: EntryWellFormed(e)
    ensures |Under(4, McEntries(was))| == |Under(4, was)|
    ensures forall k | 0 <= k < |Under(4, was)| ::
              Under(4, McEntries(was))[k] == Entry(Int(4), Algorithms(Under(4, was)[k].value))
  {
    McKeepsKeys();
    NotInjected(4, was);
    Es256Form();
    OneByOne(4, McRewrite, Algorithms, was, McInjected(was));
  }

  lemma {:induction false} OptionsEach(s: seq<Entry>)
    requires forall e | e in s :: e.key == Int(7)
    ensures |FlatMap(McRewrite, s)| == |s| && forall x | x in FlatMap(McRewrite, s) :: x == MC_OPTIONS
  {
    if s == [] {
    } else {
      OptionsEach(s[..|s| - 1]);
      assert McRewrite(s[|s| - 1]) == [MC_OPTIONS];
    }
  }

  /** What is added under a key comes after what the rewrite leaves under it. */
  lemma KeyWithAdded(g: Entry -> seq<Entry>, kb: bytes, was: seq<Entry>, added: seq<Entry>)
    requires KeepsKeys(g) && forall x | x in added :: KeyOf(x) == kb
    ensures WithKey(kb, Sort(FlatMap(g, was) + added)) == FlatMap(g, WithKey(kb, was)) + added
  {
    SortStable(kb, FlatMap(g, was) + added);
    WithKeyConcat(kb, FlatMap(g, was), added);
    WithKeyFlatMap(g, kb, was);
    WithKeyAll(kb, added);
  }

  lemma HasUnder(n: nat, was: seq<Entry>)
    requires n < 24 && KeysWellFormed(was)
    ensures HasKey(Int(n), was) <==> Under(n, was) != []
  {
    OnlyIntKey(n, was);
    assert Under(n, was) != [] ==> Under(n, was)[0] in Under(n, was);
    if HasKey(Int(n), was) {
      var e :| e in was && e.key == Int(n);
      WithKeyHas(Encode(Int(n)), was, e);
    }
  }

  /** Each options map becomes {"rk": true, "uv": true}; a request without options gets one. */
  lemma RegistrationOptions(was: seq<Entry>)
    requires forall e | e in was :: EntryWellFormed(e)
    ensures |Under(7, McEntries(was))| == if Under(7, was) == [] then 1 else |Under(7, was)|
    ensures forall e | e in Under(7, McEntries(was)) :: e == MC_OPTIONS
  {
    McKeepsKeys();
    InjectedKey(was);
    KeyWithAdded(McRewrite, Encode(Int(7)), was, McInjected(was));
    HasUnder(7, was);
    OnlyIntKey(7, was);
    OptionsEach(Under(7, was));
  }

  lemma {:induction false} WithKeyHas(kb: bytes, s: seq<Entry>, e: Entry)
    requires e in s && KeyOf(e) == kb
    ensures e in WithKey(kb, s)
  {
    if e != s[|s| - 1] {
      WithKeyHas(kb, s[..|s| - 1], e);
    }
  }

  lemma ExcludesForwarded(was: seq<Entry>)
    requires forall e | e in was :: EntryWellFormed(e)
    ensures Under(5, McEntries(was)) == BareLists(Under(5, was))
  {
    McKeepsKeys();
    NotInjected(5, was);
    ListsUnder(5, McRewrite, was, McInjected(was));
  }

  /**
   What becomes of a registration, relying party and user apart: its hashes as they came, its
   algorithm lists as said above, its exclude lists with bare descriptors, and the fixed options.
   */
  predicate RegistrationForwarded(was: seq<Entry>, now: seq<Entry>)
  {
    && Under(1, now) == Under(1, was)
    && |Under(4, now)| == |Under(4, was)|
    && (forall k | 0 <= k < |Under(4, was)| ::
          Under(4, now)[k] == Entry(Int(4), Algorithms(Under(4, was)[k].value)))
    && Under(5, now) == BareLists(Under(5, was))
    && |Under(7, now)| == (if Under(7, was) == [] then 1 else |Under(7, was)|)
    && forall e | e in Under(7, now) ::
         e == Entry(Int(7), Map([Entry(Text(RK), Bool(true)), Entry(Text(UV), Bool(true))]))
  }

  lemma EntriesForwarded(was: seq<Entry>)
    requires forall e | e in was :: EntryWellFormed(e)
    ensures RegistrationForwarded(was, McEntries(was))
  {
    ClientDataHashKept(was);
    AlgorithmsForwarded(was);
    ExcludesForwarded(was);
    RegistrationOptions(was);
    OptionsForm(true);
  }

  /** Every MakeCredential request that decodes is forwarded so, under its own command octet. */
  lemma MakeCredentialForwarded(raw: bytes)
    requires IsSlice(raw) && RequestMap(raw).Some?
    ensures RequestMap(McPayload(raw)).Some? && McPayload(raw)[0] == raw[0]
    ensures RegistrationForwarded(RequestMap(raw).value, RequestMap(McPayload(raw)).value)
  {
    McReadBack(raw);
    RequestWellFormed(raw);
    EntriesForwarded(RequestMap(raw).value);
  }
}
