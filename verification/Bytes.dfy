/** Bytes and the fixed-width integers the wire formats carry. */
module Bytes {

  type byte = x: int | 0 <= x < 256

  /** `v` modulo 256^n, most significant byte first. */
  function BigEndian(v: nat, n: nat): (r: seq<byte>)
    ensures |r| == n
    decreases n
  {
    if n == 0 then [] else BigEndian(v / 256, n - 1) + [v % 256]
  }

  function Zeros(n: nat): (r: seq<byte>)
    ensures |r| == n
  {
    seq(n, _ => 0)
  }

  lemma {:induction false} BigEndianSmall(v: nat, n: nat)
    requires v < 256 && n > 0
    ensures BigEndian(v, n) == Zeros(n - 1) + [v]
  {
    BigEndianZero(n - 1);
  }

  lemma {:induction false} BigEndianZero(n: nat)
    ensures BigEndian(0, n) == Zeros(n)
  {
    if n > 0 {
      BigEndianZero(n - 1);
      assert Zeros(n) == Zeros(n - 1) + [0];
    }
  }

  const TWO64: nat := 0x1_0000_0000_0000_0000

  function Power256(n: nat): (p: nat)
    ensures p > 0
  {
    if n == 0 then 1 else 256 * Power256(n - 1)
  }

  lemma {:induction false} BigEndianSplit(q: nat, r: nat, n: nat, low: nat)
    requires r < Power256(low)
    ensures q * Power256(low) + r >= 0
    ensures BigEndian(q * Power256(low) + r, n + low) == BigEndian(q, n) + BigEndian(r, low)
    ensures BigEndian(q * Power256(low) + r, low) == BigEndian(r, low)
    decreases low
  {
    var v := q * Power256(low) + r;
    if low == 0 {
      assert v == q;
    } else {
      var p := Power256(low - 1);
      assert v == 256 * (q * p) + r by { assert q * (256 * p) == 256 * (q * p); }
      assert v % 256 == r % 256 && v / 256 == q * p + r / 256;
      BigEndianSplit(q, r / 256, n, low - 1);
      assert BigEndian(v, n + low) == BigEndian(v / 256, n + low - 1) + [v % 256];
    }
  }

  /** The low eight bytes only see the value modulo 2^64, the rest the quotient. */
  lemma BigEndian64(v: nat, n: nat)
    ensures BigEndian(v, n + 8) == BigEndian(v / TWO64, n) + BigEndian(v % TWO64, 8)
  {
    assert Power256(8) == TWO64;
    BigEndianSplit(v / TWO64, v % TWO64, n, 8);
    assert v / TWO64 * TWO64 + v % TWO64 == v;
  }

  /** What a 64-bit counter holds after counting to `n`. */
  function Mod64(n: nat): (r: nat)
    ensures r < TWO64 && (n < TWO64 ==> r == n)
  {
    if n < TWO64 then n else Mod64(n - TWO64)
  }

  lemma {:induction false} Mod64Add(a: nat, b: nat)
    ensures Mod64(Mod64(a) + b) == Mod64(a + b)
    decreases a
  {
    if a >= TWO64 { Mod64Add(a - TWO64, b); }
  }

  lemma {:induction false} Mod64Is(n: nat)
    ensures Mod64(n) == n % TWO64
  {
    if n >= TWO64 { Mod64Is(n - TWO64); }
  }

  /** `v` shifted right by `k` bytes. */
  function ShiftBytes(v: nat, k: nat): nat {
    if k == 0 then v else ShiftBytes(v / 256, k - 1)
  }

  lemma {:induction false} BigEndianAt(v: nat, n: nat, i: nat)
    requires i < n
    ensures BigEndian(v, n)[i] == ShiftBytes(v, n - 1 - i) % 256
    decreases n
  {
    if i < n - 1 { BigEndianAt(v / 256, n - 1, i); }
  }

  // ---------- little-endian integers ----------

  function U16le(v: nat): (r: seq<byte>)
    ensures |r| == 2
  {
    [v % 256, v / 256 % 256]
  }

  function ReadU16le(b: seq<byte>, at: nat): (v: nat)
    requires at + 2 <= |b|
    ensures v < 0x1_0000
  {
    b[at] as int + 256 * b[at + 1] as int
  }

  function U32le(v: nat): (r: seq<byte>)
    ensures |r| == 4
  {
    [v % 256, v / 256 % 256, v / 0x1_0000 % 256, v / 0x100_0000 % 256]
  }

  function ReadU32le(b: seq<byte>, at: nat): (v: nat)
    requires at + 4 <= |b|
    ensures v < 0x1_0000_0000
  {
    b[at] as int + 256 * b[at + 1] as int + 0x1_0000 * b[at + 2] as int + 0x100_0000 * b[at + 3] as int
  }

  /** Read back at any place in a frame, an integer is itself modulo its width. */
  lemma U16leRoundTrip(v: nat, before: seq<byte>, after: seq<byte>)
    ensures ReadU16le(before + U16le(v) + after, |before|) == v % 0x1_0000
  {
    var f := before + U16le(v) + after;
    assert f[|before|] == v % 256 && f[|before| + 1] == v / 256 % 256;
  }

  lemma Quotient16(v: nat, q: nat, r: nat)
    requires v == 0x1_0000 * q + r && r < 0x1_0000
    ensures v / 0x1_0000 == q
  {
  }

  lemma Quotient24(v: nat, q: nat, r: nat)
    requires v == 0x100_0000 * q + r && r < 0x100_0000
    ensures v / 0x100_0000 == q
  {
  }

  lemma Remainder32(v: nat, q: nat, r: nat)
    requires v == 0x1_0000_0000 * q + r && r < 0x1_0000_0000
    ensures v % 0x1_0000_0000 == r
  {
  }

  lemma FourDigits(v: nat, d0: nat, d1: nat, d2: nat, d3: nat, a: nat, b: nat, c: nat, e: nat)
    requires v == 256 * a + d0 && a == 256 * b + d1 && b == 256 * c + d2 && c == 256 * e + d3
    requires d0 < 256 && d1 < 256 && d2 < 256 && d3 < 256
    ensures v / 0x1_0000 == b && v / 0x100_0000 == c
    ensures v % 0x1_0000_0000 == d0 + 256 * d1 + 0x1_0000 * d2 + 0x100_0000 * d3
  {
    Quotient16(v, b, 256 * d1 + d0);
    Quotient24(v, c, 0x1_0000 * d2 + 256 * d1 + d0);
    Remainder32(v, e, 0x100_0000 * d3 + 0x1_0000 * d2 + 256 * d1 + d0);
  }

  lemma U32leRoundTrip(v: nat, before: seq<byte>, after: seq<byte>)
    ensures ReadU32le(before + U32le(v) + after, |before|) == v % 0x1_0000_0000
  {
    var f := before + U32le(v) + after;
    assert f[|before|] == v % 256 && f[|before| + 1] == v / 256 % 256;
    assert f[|before| + 2] == v / 0x1_0000 % 256 && f[|before| + 3] == v / 0x100_0000 % 256;
    var a := v / 256;
    var b := a / 256;
    var c := b / 256;
    FourDigits(v, v % 256, a % 256, b % 256, c % 256, a, b, c, c / 256);
  }
}
