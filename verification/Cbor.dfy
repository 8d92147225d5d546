/**
 Concise Binary Object Representation, RFC 8949: the data model the handlers work on, the
 preferred serialization (section 4.1) and a decoder that reads one item and leaves the rest.
 Maps are sequences of entries, so that duplicate keys stay visible.
 */
module Cbor {
  import opened Bytes
  import opened Folds

  datatype Value =
    | Int(i: int)
    | Bytes(b: bytes)
    | Text(t: bytes)
    | Array(items: seq<Value>)
    | Map(entries: seq<Entry>)
    | Bool(truth: bool)
    | Null

  datatype Entry = Entry(key: Value, value: Value)

  datatype Decoded<+T> = Fail | Ok(value: T, rest: bytes)

  /** The first octets of an item: major type, argument and the width of the argument. */
  datatype Head = Head(major: nat, arg: nat, width: nat)

  const MAX_ARG: nat := 0xFFFF_FFFF_FFFF_FFFF

  /** Every string and container has at most `n` elements, text is UTF-8, integers have a CBOR head. */
  predicate Fits(v: Value, n: nat)
  {
    match v
    case Int(i) => -1 - MAX_ARG <= i <= MAX_ARG
    case Bytes(b) => |b| <= n
    case Text(t) => |t| <= n && ValidUtf8(t)
    case Array(items) => |items| <= n && forall x | x in items :: Fits(x, n)
    case Map(entries) => |entries| <= n && forall e | e in entries :: Fits(e.key, n) && Fits(e.value, n)
    case Bool(_) => true
    case Null => true
  }

  /** What can be written as one CBOR item. */
  predicate WellFormed(v: Value) { Fits(v, MAX_ARG) }

  lemma {:induction false} FitsMonotone(v: Value, n: nat, m: nat)
    requires Fits(v, n) && n <= m
    ensures Fits(v, m)
  {
    match v
    case Array(items) =>
      forall x | x in items ensures Fits(x, m) { FitsMonotone(x, n, m); }
    case Map(entries) =>
      forall e | e in entries ensures Fits(e.key, m) && Fits(e.value, m) {
        FitsMonotone(e.key, n, m);
        FitsMonotone(e.value, n, m);
      }
    case _ =>
  }

  // ---------------------------------------------------------------- encoding

  function ArgWidth(n: nat): nat
  {
    if n < 24 then 0 else if n < 0x100 then 1 else if n < 0x1_0000 then 2 else if n < 0x1_0000_0000 then 4 else 8
  }

  /** Preferred head: the shortest of the five argument widths. */
  function WriteHead(major: nat, n: nat): (r: bytes)
    requires major < 8
    ensures r != []
  {
    if n < 24 then [32 * major + n]
    else
      var w := ArgWidth(n);
      [32 * major + (if w == 1 then 24 else if w == 2 then 25 else if w == 4 then 26 else 27)] + BigEndian(n, w)
  }

  function Encode(v: Value): (r: bytes)
    ensures r != []
    decreases v, 0
  {
    match v
    case Int(i) => if i >= 0 then WriteHead(0, i) else WriteHead(1, -1 - i)
    case Bytes(b) => WriteHead(2, |b|) + b
    case Text(t) => WriteHead(3, |t|) + t
    case Array(items) => WriteHead(4, |items|) + EncodeItems(items)
    case Map(entries) => WriteHead(5, |entries|) + EncodeEntries(entries)
    case Bool(b) => [if b then 0xF5 else 0xF4]
    case Null => [0xF6]
  }

  function EncodeItems(items: seq<Value>): bytes
    decreases items, 1
  {
    if items == [] then [] else Encode(items[0]) + EncodeItems(items[1..])
  }

  function EncodeEntries(entries: seq<Entry>): bytes
    decreases entries, 1
  {
    if entries == [] then []
    else EncodeEntry(entries[0]) + EncodeEntries(entries[1..])
  }

  function EncodeEntry(e: Entry): bytes
    decreases e, 1
  {
    Encode(e.key) + Encode(e.value)
  }

  // ---------------------------------------------------------------- decoding

  function ReadHead(s: bytes): (r: Decoded<Head>)
    ensures r.Ok? ==> |r.rest| < |s| && r.value.major < 8 && r.value.arg <= MAX_ARG
  {
    if s == [] then Fail else
    var info := s[0] % 32;
    if info < 24 then Ok(Head(s[0] / 32, info, 0), s[1..])
    else if info > 27 then Fail
    else
      var w := if info == 24 then 1 else if info == 25 then 2 else if info == 26 then 4 else 8;
      if |s| < 1 + w then Fail
      else
        Pow256Values();
        FromBigEndianBound(s[1..1 + w]);
        Ok(Head(s[0] / 32, FromBigEndian(s[1..1 + w]), w), s[1 + w..])
  }

  function Decode(s: bytes): (r: Decoded<Value>)
    ensures r.Ok? ==> |r.rest| < |s| && Fits(r.value, |s|)
    decreases |s|, 0
  {
    match ReadHead(s)
    case Fail => Fail
    case Ok(h, rest) =>
      match h.major
      case 0 => Ok(Int(h.arg), rest)
      case 1 => Ok(Int(-1 - h.arg), rest)
      case 2 => if |rest| < h.arg then Fail else Ok(Bytes(rest[..h.arg]), rest[h.arg..])
      case 3 =>
        if |rest| < h.arg || !ValidUtf8(rest[..h.arg]) then Fail
        else Ok(Text(rest[..h.arg]), rest[h.arg..])
      case 4 =>
        var r := DecodeItems(h.arg, rest);
        if r.Fail? then Fail else
        FitsAll(r.value, |rest|, |s|);
        Ok(Array(r.value), r.rest)
      case 5 =>
        var r := DecodeEntries(h.arg, rest);
        if r.Fail? then Fail else
        FitsAllEntries(r.value, |rest|, |s|);
        Ok(Map(r.value), r.rest)
      case 7 =>
        if h.width > 1 then Fail
        else if h.arg == 20 || h.arg == 21 then Ok(Bool(h.arg == 21), rest)
        else if h.arg == 22 || h.arg == 23 then Ok(Null, rest)
        else Fail
      case _ => Fail
  }

  function DecodeItems(n: nat, s: bytes): (r: Decoded<seq<Value>>)
    ensures r.Ok? ==> |r.rest| + n <= |s| && |r.value| == n && forall x | x in r.value :: Fits(x, |s|)
    decreases |s|, 1
  {
    if n == 0 then Ok([], s) else
    var first := Decode(s);
    if first.Fail? then Fail else
    var others := DecodeItems(n - 1, first.rest);
    if others.Fail? then Fail else
    FitsAll(others.value, |first.rest|, |s|);
    Ok([first.value] + others.value, others.rest)
  }

  function DecodeEntries(n: nat, s: bytes): (r: Decoded<seq<Entry>>)
    ensures r.Ok? ==> |r.rest| + n <= |s| && |r.value| == n
    ensures r.Ok? ==> forall e | e in r.value :: Fits(e.key, |s|) && Fits(e.value, |s|)
    decreases |s|, 1
  {
    if n == 0 then Ok([], s) else
    var key := Decode(s);
    if key.Fail? then Fail else
    var value := Decode(key.rest);
    if value.Fail? then Fail else
    var others := DecodeEntries(n - 1, value.rest);
    if others.Fail? then Fail else
    FitsMonotone(value.value, |key.rest|, |s|);
    FitsAllEntries(others.value, |value.rest|, |s|);
    Ok([Entry(key.value, value.value)] + others.value, others.rest)
  }

  lemma FitsAll(items: seq<Value>, n: nat, m: nat)
    requires n <= m && forall x | x in items :: Fits(x, n)
    ensures forall x | x in items :: Fits(x, m)
  {
    forall x | x in items ensures Fits(x, m) { FitsMonotone(x, n, m); }
  }

  lemma FitsAllEntries(entries: seq<Entry>, n: nat, m: nat)
    requires n <= m && forall e | e in entries :: Fits(e.key, n) && Fits(e.value, n)
    ensures forall e | e in entries :: Fits(e.key, m) && Fits(e.value, m)
  {
    forall e | e in entries ensures Fits(e.key, m) && Fits(e.value, m) {
      FitsMonotone(e.key, n, m);
      FitsMonotone(e.value, n, m);
    }
  }

  // ---------------------------------------------------------------- round trip

  lemma ReadWideHead(first: byte, n: nat, w: nat, rest: bytes)
    requires (first % 32, w) in {(24, 1), (25, 2), (26, 4), (27, 8)} && n < Pow256(w)
    ensures ReadHead([first] + BigEndian(n, w) + rest) == Ok(Head(first / 32, n, w), rest)
  {
    var s := [first] + BigEndian(n, w) + rest;
    BigEndianRoundTrip(n, w);
    assert s[1..1 + w] == BigEndian(n, w);
    assert s[1 + w..] == rest;
  }

  lemma ReadWrittenHead(major: nat, n: nat, rest: bytes)
    requires major < 8 && n <= MAX_ARG
    ensures ReadHead(WriteHead(major, n) + rest) == Ok(Head(major, n, ArgWidth(n)), rest)
  {
    Pow256Values();
    if n < 24 {
      assert ([32 * major + n] + rest)[1..] == rest;
    } else {
      ReadWideHead(WriteHead(major, n)[0], n, ArgWidth(n), rest);
    }
  }

  /** Reading back what was written gives the same value, whatever follows it. */
  lemma {:induction false} RoundTrip(v: Value, rest: bytes)
    requires WellFormed(v)
    ensures Decode(Encode(v) + rest) == Ok(v, rest)
    decreases v, 0
  {
    match v
    case Int(i) => RoundTripAtom(v, rest);
    case Bytes(b) => RoundTripString(2, b, rest);
    case Text(t) => RoundTripString(3, t, rest);
    case Array(items) =>
      RoundTripItems(items, rest);
      var n, body := |items|, EncodeItems(items) + rest;
      ReadWrittenHead(4, n, body);
      Associative(WriteHead(4, n), EncodeItems(items), rest);
    case Map(entries) =>
      RoundTripEntries(entries, rest);
      var n, body := |entries|, EncodeEntries(entries) + rest;
      ReadWrittenHead(5, n, body);
      DecodeMap(WriteHead(5, n) + body, n, ArgWidth(n), body, entries, rest);
      Associative(WriteHead(5, n), EncodeEntries(entries), rest);
    case Bool(b) => RoundTripAtom(v, rest);
    case Null => RoundTripAtom(v, rest);
  }

  lemma RoundTripInt(i: int, rest: bytes)
    requires WellFormed(Int(i))
    ensures Decode(Encode(Int(i)) + rest) == Ok(Int(i), rest)
  {
    ReadWrittenHead(if i >= 0 then 0 else 1, if i >= 0 then i else -1 - i, rest);
  }

  lemma ReadSimple(octet: byte, rest: bytes)
    requires octet / 32 == 7 && octet % 32 < 24
    ensures ReadHead([octet] + rest) == Ok(Head(7, octet % 32, 0), rest)
  {
    assert ([octet] + rest)[1..] == rest;
  }

  lemma RoundTripSimple(v: Value, rest: bytes)
    requires v.Bool? || v.Null?
    ensures Decode(Encode(v) + rest) == Ok(v, rest)
  {
    ReadSimple(Encode(v)[0], rest);
  }

  lemma RoundTripAtom(v: Value, rest: bytes)
    requires (v.Int? || v.Bool? || v.Null?) && WellFormed(v)
    ensures Decode(Encode(v) + rest) == Ok(v, rest)
  {
    match v
    case Int(i) => RoundTripInt(i, rest);
    case Bool(_) => RoundTripSimple(v, rest);
    case Null => RoundTripSimple(v, rest);
  }

  lemma DecodeMap(s: bytes, n: nat, w: nat, body: bytes, entries: seq<Entry>, rest: bytes)
    requires ReadHead(s) == Ok(Head(5, n, w), body) && DecodeEntries(n, body) == Ok(entries, rest)
    ensures Decode(s) == Ok(Map(entries), rest)
  {
  }

  lemma RoundTripString(major: nat, b: bytes, rest: bytes)
    requires 2 <= major <= 3 && |b| <= MAX_ARG && (major == 3 ==> ValidUtf8(b))
    ensures Decode(WriteHead(major, |b|) + b + rest) == Ok(if major == 2 then Bytes(b) else Text(b), rest)
  {
    ReadWrittenHead(major, |b|, b + rest);
    Associative(WriteHead(major, |b|), b, rest);
    assert (b + rest)[..|b|] == b && (b + rest)[|b|..] == rest;
  }

  lemma {:induction false} RoundTripItems(items: seq<Value>, rest: bytes)
    requires forall x | x in items :: WellFormed(x)
    ensures DecodeItems(|items|, EncodeItems(items) + rest) == Ok(items, rest)
    decreases items, 1
  {
    if items == [] {
      assert EncodeItems(items) + rest == rest;
    } else {
      var x, xs := items[0], items[1..];
      assert [x] + xs == items;
      var tail := EncodeItems(xs) + rest;
      Associative(Encode(x), EncodeItems(xs), rest);
      RoundTrip(x, tail);
      RoundTripItems(xs, rest);
    }
  }

  lemma {:induction false} RoundTripEntry(e: Entry, rest: bytes)
    requires WellFormed(e.key) && WellFormed(e.value)
    ensures Decode(EncodeEntry(e) + rest) == Ok(e.key, Encode(e.value) + rest)
    ensures Decode(Encode(e.value) + rest) == Ok(e.value, rest)
    decreases e, 1
  {
    Associative(Encode(e.key), Encode(e.value), rest);
    RoundTrip(e.key, Encode(e.value) + rest);
    RoundTrip(e.value, rest);
  }

  lemma {:induction false} RoundTripEntries(entries: seq<Entry>, rest: bytes)
    requires forall e | e in entries :: WellFormed(e.key) && WellFormed(e.value)
    ensures DecodeEntries(|entries|, EncodeEntries(entries) + rest) == Ok(entries, rest)
    decreases entries, 1
  {
    if entries == [] {
      assert EncodeEntries(entries) + rest == rest;
    } else {
      var e, es := entries[0], entries[1..];
      assert [e] + es == entries;
      var tail := EncodeEntries(es) + rest;
      Associative(EncodeEntry(e), EncodeEntries(es), rest);
      RoundTripEntry(e, tail);
      RoundTripEntries(es, rest);
    }
  }

  /** No two values share an encoding. */
  lemma EncodeInjective(a: Value, b: Value)
    requires WellFormed(a) && WellFormed(b)
    ensures Encode(a) == Encode(b) <==> a == b
  {
    RoundTrip(a, []);
    RoundTrip(b, []);
    assert Encode(a) + [] == Encode(a) && Encode(b) + [] == Encode(b);
  }

  // ---------------------------------------------------------------- every width, and no truncation

  /** Integers are read from arguments of any width, not only the shortest. */
  lemma DecodeAnyWidth(info: byte, w: nat, n: nat, rest: bytes)
    requires (info, w) in {(24, 1), (25, 2), (26, 4), (27, 8)} && n < Pow256(w)
    ensures Decode([info] + BigEndian(n, w) + rest) == Ok(Int(n), rest)
    ensures Decode([0x20 + info] + BigEndian(n, w) + rest) == Ok(Int(-1 - n), rest)
  {
    ReadWideHead(info, n, w, rest);
    ReadWideHead(0x20 + info, n, w, rest);
  }

  lemma ReadHeadExtends(s: bytes, t: bytes)
    requires ReadHead(s).Ok?
    ensures ReadHead(s + t) == Ok(ReadHead(s).value, ReadHead(s).rest + t)
  {
    var w := ReadHead(s).value.width;
    assert (s + t)[1 + w..] == s[1 + w..] + t;
    assert (s + t)[1..1 + w] == s[1..1 + w];
  }

  /** What decodes does so whatever follows it, to the same value. */
  lemma {:induction false} DecodeExtends(s: bytes, t: bytes)
    requires Decode(s).Ok?
    ensures Decode(s + t) == Ok(Decode(s).value, Decode(s).rest + t)
    decreases |s|, 0
  {
    ReadHeadExtends(s, t);
    var head, body := ReadHead(s).value, ReadHead(s).rest;
    var n := head.arg;
    if head.major == 2 || head.major == 3 {
      assert (body + t)[..n] == body[..n] && (body + t)[n..] == body[n..] + t;
    } else if head.major == 4 {
      ItemsExtend(n, body, t);
    } else if head.major == 5 {
      EntriesExtend(n, body, t);
    }
  }

  lemma {:induction false} ItemsExtend(n: nat, s: bytes, t: bytes)
    requires DecodeItems(n, s).Ok?
    ensures DecodeItems(n, s + t) == Ok(DecodeItems(n, s).value, DecodeItems(n, s).rest + t)
    decreases |s|, 1
  {
    if n == 0 {
    } else {
      DecodeExtends(s, t);
      ItemsExtend(n - 1, Decode(s).rest, t);
    }
  }

  lemma {:induction false} EntriesExtend(n: nat, s: bytes, t: bytes)
    requires DecodeEntries(n, s).Ok?
    ensures DecodeEntries(n, s + t) == Ok(DecodeEntries(n, s).value, DecodeEntries(n, s).rest + t)
    decreases |s|, 1
  {
    if n == 0 {
    } else {
      DecodeExtends(s, t);
      var middle := Decode(s).rest;
      DecodeExtends(middle, t);
      EntriesExtend(n - 1, Decode(middle).rest, t);
    }
  }

  /** An encoding that is cut short does not decode. */
  lemma TruncationFails(v: Value, n: nat)
    requires WellFormed(v) && n < |Encode(v)|
    ensures Decode(Encode(v)[..n]).Fail?
  {
    var s, t := Encode(v)[..n], Encode(v)[n..];
    assert s + t == Encode(v) && Encode(v) + [] == Encode(v);
    RoundTrip(v, []);
    if Decode(s).Ok? {
      DecodeExtends(s, t);
    }
  }
}
