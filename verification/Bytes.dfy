/** Octet strings: big-endian numbers, lexicographic order, UTF-8 validity. */
module Bytes {

  type byte = x: int | 0 <= x < 256

  type bytes = seq<byte>

  /** `n` in `w` big-endian octets, as in the argument of a CBOR head or a CTAPHID length field. */
  function BigEndian(n: nat, w: nat): (r: bytes)
    ensures |r| == w
  {
    if w == 0 then [] else BigEndian(n / 256, w - 1) + [n % 256]
  }

  function FromBigEndian(s: bytes): nat
  {
    if s == [] then 0 else FromBigEndian(s[..|s| - 1]) * 256 + s[|s| - 1]
  }

  function Pow256(w: nat): nat
  {
    if w == 0 then 1 else 256 * Pow256(w - 1)
  }

  lemma {:induction false} BigEndianRoundTrip(n: nat, w: nat)
    requires n < Pow256(w)
    ensures FromBigEndian(BigEndian(n, w)) == n
  {
    if w == 0 {
    } else {
      BigEndianRoundTrip(n / 256, w - 1);
      assert BigEndian(n, w)[..w - 1] == BigEndian(n / 256, w - 1);
    }
  }

  lemma {:induction false} BigEndianOf(s: bytes)
    ensures BigEndian(FromBigEndian(s), |s|) == s
  {
    if s == [] {
    } else {
      BigEndianOf(s[..|s| - 1]);
      assert FromBigEndian(s) / 256 == FromBigEndian(s[..|s| - 1]) && FromBigEndian(s) % 256 == s[|s| - 1];
    }
  }

  lemma {:induction false} FromBigEndianBound(s: bytes)
    ensures FromBigEndian(s) < Pow256(|s|)
  {
    if s == [] {
    } else {
      FromBigEndianBound(s[..|s| - 1]);
    }
  }

  /** Values of the powers used: one, two, four and eight octets. */
  lemma Pow256Values()
    ensures Pow256(1) == 0x100 && Pow256(2) == 0x1_0000
    ensures Pow256(4) == 0x1_0000_0000 && Pow256(8) == 0x1_0000_0000_0000_0000
  {
    assert Pow256(2) == 256 * Pow256(1);
    assert Pow256(3) == 256 * Pow256(2);
    assert Pow256(4) == 256 * Pow256(3);
    assert Pow256(5) == 256 * Pow256(4);
    assert Pow256(6) == 256 * Pow256(5);
    assert Pow256(7) == 256 * Pow256(6);
  }

  /** Bytewise lexicographic order; a proper prefix comes first. */
  predicate LexLeq(a: bytes, b: bytes)
  {
    a == [] || (b != [] && (a[0] < b[0] || (a[0] == b[0] && LexLeq(a[1..], b[1..]))))
  }

  /** `a` precedes `b`, decided by an octet they both have (so whatever follows does not matter). */
  predicate LexBefore(a: bytes, b: bytes)
  {
    a != [] && b != [] && (a[0] < b[0] || (a[0] == b[0] && LexBefore(a[1..], b[1..])))
  }

  lemma {:induction false} LexTotal(a: bytes, b: bytes)
    ensures LexLeq(a, b) || LexLeq(b, a)
    ensures LexLeq(a, b) && LexLeq(b, a) ==> a == b
  {
    if a != [] && b != [] {
      LexTotal(a[1..], b[1..]);
      assert a == [a[0]] + a[1..] && b == [b[0]] + b[1..];
    }
  }

  lemma {:induction false} LexTransitive(a: bytes, b: bytes, c: bytes)
    requires LexLeq(a, b) && LexLeq(b, c)
    ensures LexLeq(a, c)
  {
    if a != [] && a[0] == b[0] == c[0] {
      LexTransitive(a[1..], b[1..], c[1..]);
    }
  }

  /** Appending anything to both sides cannot undo a decision. */
  lemma {:induction false} LexBeforeDecides(a: bytes, b: bytes, x: bytes, y: bytes)
    requires LexBefore(a, b)
    ensures LexBefore(a + x, b + y)
    ensures LexLeq(a + x, b + y) && !LexLeq(b + y, a + x)
  {
    if a[0] == b[0] {
      LexBeforeDecides(a[1..], b[1..], x, y);
      assert (a + x)[1..] == a[1..] + x && (b + y)[1..] == b[1..] + y;
    }
  }

  /** A shared prefix does not matter. */
  lemma {:induction false} LexCommonPrefix(p: bytes, a: bytes, b: bytes)
    ensures LexLeq(p + a, p + b) == LexLeq(a, b)
    ensures LexBefore(p + a, p + b) == LexBefore(a, b)
  {
    if p == [] {
      assert p + a == a && p + b == b;
    } else {
      LexCommonPrefix(p[1..], a, b);
      assert (p + a)[1..] == p[1..] + a && (p + b)[1..] == p[1..] + b;
    }
  }

  /** Fixed-width big-endian numbers are ordered as numbers. */
  lemma {:induction false} BigEndianMonotone(n: nat, m: nat, w: nat)
    requires n < m < Pow256(w)
    ensures LexBefore(BigEndian(n, w), BigEndian(m, w))
  {
    if w == 0 {
    } else {
      var p, q := BigEndian(n / 256, w - 1), BigEndian(m / 256, w - 1);
      if n / 256 < m / 256 {
        BigEndianMonotone(n / 256, m / 256, w - 1);
        LexBeforeDecides(p, q, [n % 256], [m % 256]);
      } else {
        assert n / 256 == m / 256;
        LexCommonPrefix(p, [n % 256], [m % 256]);
      }
    }
  }

  /** UTF-8 well-formedness: Table 3-7 of the Unicode Standard. */
  predicate ValidUtf8(s: bytes)
    decreases |s|
  {
    if s == [] then true
    else if s[0] < 0x80 then ValidUtf8(s[1..])
    else if 0xC2 <= s[0] <= 0xDF then
      |s| >= 2 && Tail(s[1]) && ValidUtf8(s[2..])
    else if 0xE0 <= s[0] <= 0xEF then
      && |s| >= 3 && Tail(s[1]) && Tail(s[2])
      && (s[0] == 0xE0 ==> s[1] >= 0xA0) && (s[0] == 0xED ==> s[1] <= 0x9F)
      && ValidUtf8(s[3..])
    else if 0xF0 <= s[0] <= 0xF4 then
      && |s| >= 4 && Tail(s[1]) && Tail(s[2]) && Tail(s[3])
      && (s[0] == 0xF0 ==> s[1] >= 0x90) && (s[0] == 0xF4 ==> s[1] <= 0x8F)
      && ValidUtf8(s[4..])
    else false
  }

  predicate Tail(b: byte) { 0x80 <= b <= 0xBF }

  lemma {:induction false} AsciiIsUtf8(s: bytes)
    requires forall i | 0 <= i < |s| :: s[i] < 0x80
    ensures ValidUtf8(s)
  {
    if s == [] {
    } else {
      AsciiIsUtf8(s[1..]);
    }
  }

  /** The UTF-8 octets of a Unicode scalar value. */
  function Utf8(scalar: nat): bytes
    requires scalar < 0x11_0000
  {
    if scalar < 0x80 then [scalar]
    else if scalar < 0x800 then [0xC0 + scalar / 0x40, 0x80 + scalar % 0x40]
    else if scalar < 0x1_0000 then [0xE0 + scalar / 0x1000, 0x80 + scalar / 0x40 % 0x40, 0x80 + scalar % 0x40]
    else [0xF0 + scalar / 0x4_0000, 0x80 + scalar / 0x1000 % 0x40, 0x80 + scalar / 0x40 % 0x40, 0x80 + scalar % 0x40]
  }

  predicate ScalarValue(n: nat) { n < 0xD800 || 0xE000 <= n < 0x11_0000 }

  lemma AfterTails(s: bytes, n: nat, rest: bytes)
    requires |s| == n && 1 <= n <= 4
    ensures |s + rest| >= n && (s + rest)[n..] == rest && forall i | 0 <= i < n :: (s + rest)[i] == s[i]
  {
  }

  lemma LongScalarIsUtf8(scalar: nat, rest: bytes)
    requires ScalarValue(scalar) && 0x1_0000 <= scalar
    ensures ValidUtf8(Utf8(scalar) + rest) <==> ValidUtf8(rest)
  {
    AfterTails(Utf8(scalar), 4, rest);
  }

  lemma MiddleScalarIsUtf8(scalar: nat, rest: bytes)
    requires ScalarValue(scalar) && 0x800 <= scalar < 0x1_0000
    ensures ValidUtf8(Utf8(scalar) + rest) <==> ValidUtf8(rest)
  {
    AfterTails(Utf8(scalar), 3, rest);
  }

  /** A scalar value in front does not matter. */
  lemma ScalarIsUtf8(scalar: nat, rest: bytes)
    requires ScalarValue(scalar)
    ensures ValidUtf8(Utf8(scalar) + rest) <==> ValidUtf8(rest)
  {
    if scalar < 0x800 {
      AfterTails(Utf8(scalar), if scalar < 0x80 then 1 else 2, rest);
    } else if scalar < 0x1_0000 {
      MiddleScalarIsUtf8(scalar, rest);
    } else {
      LongScalarIsUtf8(scalar, rest);
    }
  }

  lemma TwoTails(p: nat, q: nat)
    requires 2 <= p < 0x20 && q < 0x40
    ensures 0x80 <= p * 0x40 + q < 0x800 && Utf8(p * 0x40 + q) == [0xC0 + p, 0x80 + q]
  {
  }

  lemma ThreeTails(p: nat, q: nat, r: nat)
    requires p < 0x10 && q < 0x40 && r < 0x40 && p * 0x40 + q >= 0x20
    ensures var n := p * 0x1000 + q * 0x40 + r;
            0x800 <= n < 0x1_0000 && Utf8(n) == [0xE0 + p, 0x80 + q, 0x80 + r]
  {
    var n := p * 0x1000 + q * 0x40 + r;
    assert n / 0x40 == p * 0x40 + q;
  }

  lemma FourTails(p: nat, q: nat, r: nat, t: nat)
    requires p < 5 && q < 0x40 && r < 0x40 && t < 0x40 && 0x10 <= p * 0x40 + q < 0x110
    ensures var n := p * 0x4_0000 + q * 0x1000 + r * 0x40 + t;
            0x1_0000 <= n < 0x11_0000 && Utf8(n) == [0xF0 + p, 0x80 + q, 0x80 + r, 0x80 + t]
  {
    var n := p * 0x4_0000 + q * 0x1000 + r * 0x40 + t;
    assert n / 0x40 == p * 0x1000 + q * 0x40 + r;
    assert n / 0x1000 == p * 0x40 + q;
  }

  /** What is not empty and valid starts with one. */
  lemma Utf8StartsWithScalar(s: bytes) returns (scalar: nat, rest: bytes)
    requires ValidUtf8(s) && s != []
    ensures ScalarValue(scalar) && s == Utf8(scalar) + rest && ValidUtf8(rest)
  {
    var a: int := s[0];
    if a < 0x80 {
      scalar, rest := a, s[1..];
    } else if a <= 0xDF {
      var p: nat, q: nat := a - 0xC0, s[1] as int - 0x80;
      TwoTails(p, q);
      scalar, rest := p * 0x40 + q, s[2..];
    } else if a <= 0xEF {
      var p: nat, q: nat, r: nat := a - 0xE0, s[1] as int - 0x80, s[2] as int - 0x80;
      ThreeTails(p, q, r);
      scalar, rest := p * 0x1000 + q * 0x40 + r, s[3..];
    } else {
      var p: nat, q: nat, r: nat, t: nat := a - 0xF0, s[1] as int - 0x80, s[2] as int - 0x80, s[3] as int - 0x80;
      FourTails(p, q, r, t);
      scalar, rest := p * 0x4_0000 + q * 0x1000 + r * 0x40 + t, s[4..];
    }
  }
}
