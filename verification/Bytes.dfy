/** Byte strings as the ordered store compares them: lexicographic order and
    the eight-byte big-endian form of a signed 64-bit integer. */
module Bytes {

  type byte = b: int | 0 <= b < 256
  type i64 = x: int | -0x8000_0000_0000_0000 <= x < 0x8000_0000_0000_0000
  type bytes = seq<byte>

  const I64_MAX: i64 := 0x7FFF_FFFF_FFFF_FFFF
  const TWO_TO_64: nat := 0x1_0000_0000_0000_0000

  // ---------- lexicographic order ----------

  predicate Less(a: bytes, b: bytes) {
    b != [] && (a == [] || a[0] < b[0] || (a[0] == b[0] && Less(a[1..], b[1..])))
  }

  lemma {:induction false} LessIrreflexive(a: bytes)
    ensures !Less(a, a)
  {
    if a != [] { LessIrreflexive(a[1..]); }
  }

  lemma {:induction false} LessTransitive(a: bytes, b: bytes, c: bytes)
    requires Less(a, b) && Less(b, c)
    ensures Less(a, c)
  {
    if a != [] && a[0] == b[0] == c[0] { LessTransitive(a[1..], b[1..], c[1..]); }
  }

  lemma {:induction false} LessTotal(a: bytes, b: bytes)
    ensures a == b || Less(a, b) || Less(b, a)
  {
    if a != [] && b != [] && a[0] == b[0] {
      LessTotal(a[1..], b[1..]);
      assert a == [a[0]] + a[1..] && b == [b[0]] + b[1..];
    }
  }

  /** A common prefix does not influence the order. */
  lemma {:induction false} LessAfterPrefix(p: bytes, x: bytes, y: bytes)
    ensures Less(p + x, p + y) <==> Less(x, y)
  {
    if p == [] {
      assert p + x == x && p + y == y;
    } else {
      assert (p + x)[1..] == p[1..] + x && (p + y)[1..] == p[1..] + y;
      LessAfterPrefix(p[1..], x, y);
    }
  }

  /** Whatever lies in a half-open range whose two ends share a prefix has that
      prefix itself. This is what keeps a scan inside one conversation. */
  lemma {:induction false} RangeKeepsPrefix(p: bytes, x: bytes, y: bytes, k: bytes)
    requires !Less(k, p + x) && Less(k, p + y)
    ensures |p| <= |k| && k == p + k[|p|..]
    ensures !Less(k[|p|..], x) && Less(k[|p|..], y)
  {
    if p == [] {
      assert p + x == x && p + y == y;
    } else {
      assert (p + x)[1..] == p[1..] + x && (p + y)[1..] == p[1..] + y;
      assert k != [] && k[0] == p[0];
      RangeKeepsPrefix(p[1..], x, y, k[1..]);
      assert k[1..][|p| - 1..] == k[|p|..];
      assert k == [k[0]] + k[1..];
    }
  }

  // ---------- big-endian integers ----------

  function Power256(n: nat): (r: nat)
    ensures r >= 1
  {
    if n == 0 then 1 else 256 * Power256(n - 1)
  }

  function Digits(u: nat, n: nat): (s: bytes)
    requires u < Power256(n)
    ensures |s| == n
  {
    if n == 0 then [] else Digits(u / 256, n - 1) + [u % 256]
  }

  function Value(s: bytes): (u: nat)
    ensures u < Power256(|s|)
  {
    if s == [] then 0 else Value(s[..|s| - 1]) * 256 + s[|s| - 1]
  }

  lemma {:induction false} DigitsValue(u: nat, n: nat)
    requires u < Power256(n)
    ensures Value(Digits(u, n)) == u
  {
    if n > 0 {
      DigitsValue(u / 256, n - 1);
      assert Digits(u, n)[..n - 1] == Digits(u / 256, n - 1);
    }
  }

  lemma {:induction false} ValueDigits(s: bytes)
    ensures Digits(Value(s), |s|) == s
  {
    if s != [] {
      ValueDigits(s[..|s| - 1]);
      assert Value(s) / 256 == Value(s[..|s| - 1]) && Value(s) % 256 == s[|s| - 1];
      assert s == s[..|s| - 1] + [s[|s| - 1]];
    }
  }

  /** Two strings of one length compare like their initial parts, ties broken by the last byte. */
  lemma {:induction false} LessLastByte(a: bytes, x: byte, b: bytes, y: byte)
    requires |a| == |b|
    ensures Less(a + [x], b + [y]) <==> Less(a, b) || (a == b && x < y)
  {
    if a != [] {
      assert (a + [x])[1..] == a[1..] + [x] && (b + [y])[1..] == b[1..] + [y];
      LessLastByte(a[1..], x, b[1..], y);
      if a[0] == b[0] { assert a == [a[0]] + a[1..] && b == [b[0]] + b[1..]; }
    }
  }

  lemma {:induction false} DigitsOrder(u: nat, v: nat, n: nat)
    requires u < Power256(n) && v < Power256(n)
    ensures Less(Digits(u, n), Digits(v, n)) <==> u < v
  {
    if n > 0 {
      DigitsOrder(u / 256, v / 256, n - 1);
      LessLastByte(Digits(u / 256, n - 1), u % 256, Digits(v / 256, n - 1), v % 256);
      if Digits(u / 256, n - 1) == Digits(v / 256, n - 1) {
        DigitsValue(u / 256, n - 1);
        DigitsValue(v / 256, n - 1);
      }
    }
  }

  /** The unsigned integer with the same 64 bits. */
  function Unsigned(x: i64): (u: nat)
    ensures u < TWO_TO_64
  {
    if x < 0 then x + TWO_TO_64 else x
  }

  lemma Power256Eight()
    ensures Power256(8) == TWO_TO_64
  {
    assert Power256(2) == 0x1_0000;
    assert Power256(4) == 0x1_0000_0000;
    assert Power256(6) == 0x1_0000_0000_0000;
  }

  /** `i64::to_be_bytes` */
  function BigEndian(x: i64): (s: bytes)
    ensures |s| == 8
  {
    Power256Eight();
    Digits(Unsigned(x), 8)
  }

  /** `i64::from_be_bytes` */
  function FromBigEndian(s: bytes): i64
    requires |s| == 8
  {
    Power256Eight();
    var u := Value(s);
    if u > I64_MAX then u - TWO_TO_64 else u
  }

  lemma BigEndianRoundTrip(x: i64)
    ensures FromBigEndian(BigEndian(x)) == x
  {
    Power256Eight();
    DigitsValue(Unsigned(x), 8);
  }

  lemma FromBigEndianRoundTrip(s: bytes)
    requires |s| == 8
    ensures BigEndian(FromBigEndian(s)) == s
  {
    Power256Eight();
    ValueDigits(s);
  }

  /** Byte order is the integer order of the unsigned forms ... */
  lemma BigEndianOrder(x: i64, y: i64)
    ensures Less(BigEndian(x), BigEndian(y)) <==> Unsigned(x) < Unsigned(y)
  {
    Power256Eight();
    DigitsOrder(Unsigned(x), Unsigned(y), 8);
  }

  /** ... so it is the order of the signed integers exactly when the signs agree. */
  lemma BigEndianOrderIsSigned(x: i64, y: i64)
    ensures (Less(BigEndian(x), BigEndian(y)) <==> x < y) <==> (x < 0 <==> y < 0)
  {
    BigEndianOrder(x, y);
  }
}
