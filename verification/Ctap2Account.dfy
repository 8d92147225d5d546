/**
 The account the phone shows for a MakeCredential request: what the relying party and the user of
 the forwarded request are called, in terms of the fields of the original.
 */
module Ctap2Account {
  import opened Bytes
  import opened Folds
  import opened Cbor
  import opened CborOrder
  import opened KeyFolds
  import opened Ctap2
  import opened Ctap2Wire
  import opened Ctap2Idempotence
  import opened Ctap2Canonical
  import opened Ctap2Registration
  import opened Ctap2Octets

  /** The last value under that name. */
  function LastValue(m: seq<Entry>, name: bytes): Option<Value>
  {
    if m == [] then None
    else if m[|m| - 1].key == Text(name) then Some(m[|m| - 1].value)
    else LastValue(m[..|m| - 1], name)
  }

  /** That value, if it is a non-empty text. */
  function Given(m: seq<Entry>, name: bytes): Option<bytes>
  {
    match LastValue(m, name)
    case Some(Text(t)) => if t != [] then Some(t) else None
    case _ => None
  }

  /** One entry has that name, and this is its value. */
  predicate Only(m: seq<Entry>, name: bytes, v: Value)
  {
    WithKey(Encode(Text(name)), m) == [Entry(Text(name), v)]
  }

  lemma {:induction false} LastIsLast(f: Entry -> Option<Value>, m: seq<Entry>, name: bytes)
    requires forall e: Entry :: f(e) == if e.key == Text(name) then Some(e.value) else None
    ensures LastValue(m, name) == LastSome(f, m)
  {
    if m == [] {
    } else {
      LastIsLast(f, m[..|m| - 1], name);
    }
  }

  lemma GivenIsLast(f: Entry -> Option<Value>, m: seq<Entry>, name: bytes)
    requires forall e: Entry :: f(e) == if e.key == Text(name) then Some(e.value) else None
    ensures Given(m, name) == NonEmptyText(LastSome(f, m))
  {
    LastIsLast(f, m, name);
  }

  predicate KeysWellFormed(m: seq<Entry>) { forall e | e in m :: WellFormed(e.key) }

  // ---------------------------------------------------------------- records

  /** In a rewritten record only the record's own entries have its own names. */
  lemma OwnOnly(own: seq<Entry>, other: Entry -> seq<Entry>, m: seq<Entry>, key: Value)
    requires KeysWellFormed(m) && WellFormed(key)
    requires forall e: Entry :: other(e) == if e.key == key then [] else other(e)
    requires forall e: Entry :: other(e) == [] || other(e) == [e]
    ensures WithKey(Encode(key), Sort(own + FlatMap(other, m))) == WithKey(Encode(key), own)
  {
    var kb, rest := Encode(key), FlatMap(other, m);
    SortStable(kb, own + rest);
    WithKeyConcat(kb, own, rest);
    forall x | x in rest ensures KeyOf(x) != kb {
      var e := FlatMapMember(other, m, x);
      EncodeInjective(x.key, key);
    }
    WithKeyNone(kb, rest);
  }

  lemma NamesApart()
    ensures Encode(Text(ID)) != Encode(Text(NAME)) && Encode(Text(ID)) != Encode(Text(DISPLAY_NAME))
    ensures Encode(Text(NAME)) != Encode(Text(DISPLAY_NAME))
  {
    StringSize(ID);
    StringSize(NAME);
    StringSize(DISPLAY_NAME);
  }

  lemma OneOfThree(kb: bytes, a: Entry, b: Entry, c: Entry)
    ensures WithKey(kb, [a, b, c]) == IfKey(kb, a) + IfKey(kb, b) + IfKey(kb, c)
    ensures WithKey(kb, [a, b]) == IfKey(kb, a) + IfKey(kb, b)
  {
    WithKeySnoc(kb, [], a);
    WithKeySnoc(kb, [a], b);
    WithKeySnoc(kb, [a, b], c);
    assert [] + [a] == [a] && [a] + [b] == [a, b] && [a, b] + [c] == [a, b, c];
  }

  lemma Picked(kb: bytes, e: Entry)
    ensures KeyOf(e) == kb ==> IfKey(kb, e) == [e]
    ensures KeyOf(e) != kb ==> IfKey(kb, e) == []
  {
  }

  lemma OwnOfThree(a: Entry, b: Entry, c: Entry)
    requires KeyOf(a) != KeyOf(b) && KeyOf(a) != KeyOf(c) && KeyOf(b) != KeyOf(c)
    ensures WithKey(KeyOf(a), [a, b, c]) == [a]
    ensures WithKey(KeyOf(b), [a, b, c]) == [b]
    ensures WithKey(KeyOf(c), [a, b, c]) == [c]
  {
    forall kb, e { Picked(kb, e); }
    OneOfThree(KeyOf(a), a, b, c);
    OneOfThree(KeyOf(b), a, b, c);
    OneOfThree(KeyOf(c), a, b, c);
  }

  lemma UserRecordOnly(id: Value, name: bytes, displayName: bytes, user: seq<Entry>)
    requires KeysWellFormed(user)
    ensures var now := UserRecord(id, name, displayName, user);
            Only(now, ID, id) && Only(now, NAME, Text(name)) && Only(now, DISPLAY_NAME, Text(displayName))
  {
    FieldNamesWellFormed();
    NamesApart();
    var a, b, c := Entry(Text(ID), id), Entry(Text(NAME), Text(name)), Entry(Text(DISPLAY_NAME), Text(displayName));
    OwnOfThree(a, b, c);
    OwnOnly([a, b, c], UserOther, user, Text(ID));
    OwnOnly([a, b, c], UserOther, user, Text(NAME));
    OwnOnly([a, b, c], UserOther, user, Text(DISPLAY_NAME));
  }

  lemma RpRecordOnly(id: bytes, name: bytes, rp: seq<Entry>)
    requires KeysWellFormed(rp)
    ensures var now := RpRecord(id, name, rp); Only(now, ID, Text(id)) && Only(now, NAME, Text(name))
  {
    FieldNamesWellFormed();
    NamesApart();
    var a, b := Entry(Text(ID), Text(id)), Entry(Text(NAME), Text(name));
    OwnOnly([a, b], RpOther, rp, Text(ID));
    OwnOnly([a, b], RpOther, rp, Text(NAME));
    OneOfThree(Encode(Text(ID)), a, b, b);
    OneOfThree(Encode(Text(NAME)), a, b, b);
  }

  // ---------------------------------------------------------------- what the account is called

  /**
   A given name and a given display name are kept; a missing one is taken from the other; with
   neither both are "user".
   */
  predicate UserNamed(user: seq<Entry>, now: seq<Entry>)
  {
    match (Given(user, NAME), Given(user, DISPLAY_NAME))
    case (Some(name), Some(displayName)) => Only(now, NAME, Text(name)) && Only(now, DISPLAY_NAME, Text(displayName))
    case (Some(name), None) => Only(now, NAME, Text(name)) && Only(now, DISPLAY_NAME, Text(name))
    case (None, Some(displayName)) => Only(now, NAME, Text(displayName)) && Only(now, DISPLAY_NAME, Text(displayName))
    case (None, None) =>
      && Only(now, NAME, Text([0x75, 0x73, 0x65, 0x72]))
      && Only(now, DISPLAY_NAME, Text([0x75, 0x73, 0x65, 0x72]))
  }

  /** A given id of whatever kind is kept, the last one; a missing one is the octets of the forwarded name. */
  ghost predicate UserIdentified(user: seq<Entry>, now: seq<Entry>)
  {
    && (forall i | 0 <= i < |user| && user[i].key == Text(ID)
                   && (forall j | i < j < |user| :: user[j].key != Text(ID)) ::
          Only(now, ID, user[i].value))
    && ((forall e | e in user :: e.key != Text(ID)) ==>
          forall name | Only(now, NAME, Text(name)) :: Only(now, ID, Bytes(name)))
  }

  /** A given id and a given name are kept; a missing one is taken from the other; with neither both are "webauthn". */
  predicate RpNamed(rp: seq<Entry>, now: seq<Entry>)
  {
    match (Given(rp, ID), Given(rp, NAME))
    case (Some(id), Some(name)) => Only(now, ID, Text(id)) && Only(now, NAME, Text(name))
    case (Some(id), None) => Only(now, ID, Text(id)) && Only(now, NAME, Text(id))
    case (None, Some(name)) => Only(now, ID, Text(name)) && Only(now, NAME, Text(name))
    case (None, None) =>
      && Only(now, ID, Text([0x77, 0x65, 0x62, 0x61, 0x75, 0x74, 0x68, 0x6E]))
      && Only(now, NAME, Text([0x77, 0x65, 0x62, 0x61, 0x75, 0x74, 0x68, 0x6E]))
  }

  lemma LastIdKept(user: seq<Entry>, i: nat)
    ensures i < |user| && user[i].key == Text(ID) && (forall j | i < j < |user| :: user[j].key != Text(ID)) ==>
              UserId(user) == user[i].value
    ensures (forall e | e in user :: e.key != Text(ID)) ==> UserId(user) == Bytes(UserName(user))
  {
    if i < |user| && user[i].key == Text(ID) && forall j | i < j < |user| :: user[j].key != Text(ID) {
      LastSomeAt(IdValueOf, user, i);
    }
    if forall e | e in user :: e.key != Text(ID) {
      LastSomeNone(IdValueOf, user);
    }
  }

  lemma CleanUserIdentified(user: seq<Entry>)
    requires KeysWellFormed(user)
    ensures UserIdentified(user, CleanUser(user))
  {
    UserRecordOnly(UserId(user), UserName(user), UserDisplayName(user), user);
    forall i: nat { LastIdKept(user, i); }
    LastIdKept(user, 0);
  }

  lemma CleanUserNamed(user: seq<Entry>)
    requires KeysWellFormed(user)
    ensures UserNamed(user, CleanUser(user)) && UserIdentified(user, CleanUser(user))
  {
    SuppliedNames();
    GivenIsLast(NameValueOf, user, NAME);
    GivenIsLast(DisplayNameValueOf, user, DISPLAY_NAME);
    UserRecordOnly(UserId(user), UserName(user), UserDisplayName(user), user);
    CleanUserIdentified(user);
  }

  lemma CleanRpNamed(rp: seq<Entry>)
    requires KeysWellFormed(rp)
    ensures RpNamed(rp, CleanRp(rp))
  {
    SuppliedNames();
    GivenIsLast(IdValueOf, rp, ID);
    GivenIsLast(NameValueOf, rp, NAME);
    RpRecordOnly(RpId(rp), RpName(rp), rp);
  }

  // ---------------------------------------------------------------- the request as a whole

  lemma OneByOne(n: nat, g: Entry -> seq<Entry>, f: Value -> Value, entries: seq<Entry>, added: seq<Entry>)
    requires n < 24 && KeysWellFormed(entries) && KeepsKeys(g) && forall x | x in added :: KeyOf(x) != Encode(Int(n))
    requires forall e | e in entries && e.key == Int(n) :: g(e) == [Entry(e.key, f(e.value))]
    ensures var was := WithKey(Encode(Int(n)), entries);
            var now := WithKey(Encode(Int(n)), Sort(FlatMap(g, entries) + added));
            |now| == |was| && forall k | 0 <= k < |was| :: now[k] == Entry(Int(n), f(was[k].value))
  {
    var was := WithKey(Encode(Int(n)), entries);
    KeyAfterRewrite(g, Encode(Int(n)), entries, added);
    OnlyIntKey(n, entries);
    EachRewritten(n, g, f, was);
  }

  lemma EachRewritten(n: nat, g: Entry -> seq<Entry>, f: Value -> Value, was: seq<Entry>)
    requires forall e | e in was :: g(e) == [Entry(Int(n), f(e.value))]
    ensures var now := FlatMap(g, was);
            |now| == |was| && forall k | 0 <= k < |was| :: now[k] == Entry(Int(n), f(was[k].value))
  {
    var each := seq(|was|, k requires 0 <= k < |was| => Entry(Int(n), f(was[k].value)));
    forall k | 0 <= k < |was| ensures g(was[k]) == [each[k]] { assert was[k] in was; }
    FlatMapEach(g, was, each);
  }

  lemma NotInjected(n: nat, entries: seq<Entry>)
    requires n < 7
    ensures forall x | x in McInjected(entries) :: KeyOf(x) != Encode(Int(n))
  {
    InjectedKey(entries);
    EncodeInjective(Int(n), Int(7));
  }

  /** Every key-2 entry, in order, has become a map that names its relying party. */
  lemma RpsForwarded(entries: seq<Entry>, k: nat, m: seq<Entry>)
    requires forall e | e in entries :: EntryWellFormed(e)
    ensures var was, now := WithKey(Encode(Int(2)), entries), WithKey(Encode(Int(2)), McEntries(entries));
            && |now| == |was|
            && (k < |was| && FieldsOf(was[k].value, m) ==> now[k].value.Map? && RpNamed(m, now[k].value.entries))
  {
    McKeepsKeys();
    NotInjected(2, entries);
    OneByOne(2, McRewrite, v => Map(CleanRp(EntriesOf(v))), entries, McInjected(entries));
    var was := WithKey(Encode(Int(2)), entries);
    if k < |was| && FieldsOf(was[k].value, m) {
      WithKeyMember(Encode(Int(2)), entries, was[k]);
      FieldsWellFormed(was[k], m);
      CleanRpNamed(m);
    }
  }

  lemma UsersRewritten(entries: seq<Entry>)
    requires forall e | e in entries :: EntryWellFormed(e)
    ensures var was, now := WithKey(Encode(Int(3)), entries), WithKey(Encode(Int(3)), McEntries(entries));
            && |now| == |was|
            && forall k | 0 <= k < |was| :: now[k] == Entry(Int(3), Map(CleanUser(EntriesOf(was[k].value))))
  {
    McKeepsKeys();
    NotInjected(3, entries);
    OneByOne(3, McRewrite, v => Map(CleanUser(EntriesOf(v))), entries, McInjected(entries));
  }

  /** Every key-3 entry, in order, has become a map that names the account. */
  lemma UsersForwarded(entries: seq<Entry>, k: nat, m: seq<Entry>)
    requires forall e | e in entries :: EntryWellFormed(e)
    ensures var was, now := WithKey(Encode(Int(3)), entries), WithKey(Encode(Int(3)), McEntries(entries));
            && |now| == |was|
            && (k < |was| && FieldsOf(was[k].value, m) ==>
                  now[k].value.Map? && UserNamed(m, now[k].value.entries) && UserIdentified(m, now[k].value.entries))
  {
    UsersRewritten(entries);
    var was := WithKey(Encode(Int(3)), entries);
    if k < |was| && FieldsOf(was[k].value, m) {
      WithKeyMember(Encode(Int(3)), entries, was[k]);
      FieldsWellFormed(was[k], m);
      CleanUserNamed(m);
    }
  }

  /** The fields of a map; anything else has none. */
  ghost predicate FieldsOf(v: Value, m: seq<Entry>) { if v.Map? then m == v.entries else m == [] }

  /**
   What the forwarded request calls its relying party and its account: for each key-2 and key-3
   entry of the request, in order, there is one in the payload with the names and ids said above.
   */
  lemma AccountForwarded(raw: bytes, k: nat, m: seq<Entry>)
    requires IsSlice(raw) && RequestMap(raw).Some?
    ensures RequestMap(McPayload(raw)).Some?
    ensures var entries, now := RequestMap(raw).value, RequestMap(McPayload(raw)).value;
            var rps, rps' := WithKey(Encode(Int(2)), entries), WithKey(Encode(Int(2)), now);
            var users, users' := WithKey(Encode(Int(3)), entries), WithKey(Encode(Int(3)), now);
            && |rps'| == |rps|
            && (k < |rps| && FieldsOf(rps[k].value, m) ==> rps'[k].value.Map? && RpNamed(m, rps'[k].value.entries))
            && |users'| == |users|
            && (k < |users| && FieldsOf(users[k].value, m) ==>
                  && users'[k].value.Map?
                  && UserNamed(m, users'[k].value.entries) && UserIdentified(m, users'[k].value.entries))
  {
    McReadBack(raw);
    RequestWellFormed(raw);
    RpsForwarded(RequestMap(raw).value, k, m);
    UsersForwarded(RequestMap(raw).value, k, m);
  }

  lemma FieldsWellFormed(e: Entry, m: seq<Entry>)
    requires EntryWellFormed(e) && FieldsOf(e.value, m)
    ensures m == EntriesOf(e.value) && KeysWellFormed(m)
  {
  }
}
