/**
  The wire formats pinned to what their standards say: byte order, the base64 alphabet of
  section 4 of RFC 4648, the masking of section 5.3 of RFC 6455, and the padding of section 5.1 of
  FIPS 180-4.
 */
module FormatLaws {
  import opened Bytes
  import opened Hashing
  import Base64
  import WebSocket

  // ---------- byte order ----------

  /** Little-endian on the link, big-endian in hashes and frame lengths. */
  lemma ByteOrder()
    ensures U16le(0x1234) == [0x34, 0x12]
    ensures U32le(0x1234_5678) == [0x78, 0x56, 0x34, 0x12]
    ensures BigEndian(0x1234, 2) == [0x12, 0x34]
  {
    assert BigEndian(0x12, 1) == BigEndian(0, 0) + [0x12];
  }

  // ---------- base64 ----------

  /** A to Z, a to z, 0 to 9, plus and slash, in that order. */
  lemma AlphabetInOrder(i: Base64.sextet)
    ensures Base64.Letter(0) == 'A' && Base64.Letter(26) == 'a' && Base64.Letter(52) == '0'
    ensures Base64.Letter(62) == '+' && Base64.Letter(63) == '/'
    ensures i < 61 && i != 25 && i != 51 ==> Base64.Letter(i + 1) as int == Base64.Letter(i) as int + 1
  {
  }

  /** Vectors of section 10 of RFC 4648: the encodings of f, fo and foo. */
  lemma KnownEncodings()
    ensures Base64.Quad([0x66]) == "Zg==" && Base64.Quad([0x66, 0x6F]) == "Zm8=" && Base64.Quad([0x66, 0x6F, 0x6F]) == "Zm9v"
  {
    hide Base64.Letter;
    assert Base64.Triple([0x66]) == 0x66_0000 && Base64.Triple([0x66, 0x6F]) == 0x66_6F00 && Base64.Triple([0x66, 0x6F, 0x6F]) == 0x66_6F6F;
    LettersOfFoo();
  }

  lemma LettersOfFoo()
    ensures Base64.Letter(25) == 'Z' && Base64.Letter(32) == 'g' && Base64.Letter(38) == 'm' && Base64.Letter(60) == '8'
    ensures Base64.Letter(61) == '9' && Base64.Letter(47) == 'v'
  {
  }

  // ---------- masking ----------

  /** Bit `k` of a number. */
  function Bit(v: nat, k: nat): nat {
    if k == 0 then v % 2 else Bit(v / 2, k - 1)
  }

  lemma {:induction false} XorBitsIsBitwise(a: nat, m: nat, n: nat, k: nat)
    requires k < n
    ensures Bit(WebSocket.XorBits(a, m, n), k) == (Bit(a, k) + Bit(m, k)) % 2
    decreases n
  {
    if k > 0 { XorBitsIsBitwise(a / 2, m / 2, n - 1, k - 1); }
  }

  /** Byte `i` of a masked payload is the exclusive or with byte `i` modulo 4 of the key, bit by bit. */
  lemma MaskingIsExclusiveOr(data: seq<byte>, mask: seq<byte>, i: nat, k: nat)
    requires |mask| == 4 && i < |data| && k < 8
    ensures Bit(WebSocket.Masked(data, mask)[i] as int, k) == (Bit(data[i] as int, k) + Bit(mask[i % 4] as int, k)) % 2
  {
    XorBitsIsBitwise(data[i] as int, mask[i % 4] as int, 8, k);
  }

  // ---------- padding ----------

  /** A padded message is the message, the byte 0x80, the fewest zeros that fill up the blocks, and
      the length in bits. */
  lemma PaddingShape(msg: seq<byte>, size: BlockSize, lengthBytes: nat)
    requires 8 * |msg| < Power256(lengthBytes)
    ensures var p, n := Pad(msg, size, lengthBytes), |msg|;
            && n + 1 + lengthBytes <= |p| < n + 1 + lengthBytes + size && Rem(|p|, size) == 0
            && p[..n] == msg && p[n] == 0x80
            && (forall i :: n < i < |p| - lengthBytes ==> p[i] == 0)
            && WebSocket.FromBigEndian(p[|p| - lengthBytes..]) == 8 * n
  {
    hide BigEndian, ZeroFill;
    var k := ZeroFill(|msg|, size, lengthBytes);
    var length := BigEndian(8 * |msg|, lengthBytes);
    var p := Pad(msg, size, lengthBytes);
    assert p == msg + [0x80] + Zeros(k) + length;
    assert p[|p| - lengthBytes..] == length;
    WebSocket.BigEndianBack(8 * |msg|, lengthBytes);
  }
}
