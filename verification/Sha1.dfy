/**
  SHA-1 as the simulator's WebSocket handshake computes it (firmware/sim/src/ws_server.c),
  against sections 4.1.1, 5.1.1 and 6.1.2 of FIPS 180-4.
 */
module Sha1 {
  import opened Bytes
  import opened Hashing

  datatype Words = Words(a: bv32, b: bv32, c: bv32, d: bv32, e: bv32)

  const IV: Words := Words(0x67452301, 0xEFCDAB89, 0x98BADCFE, 0x10325476, 0xC3D2E1F0)
  const BLOCK: BlockSize := 64
  const LENGTH_BYTES: nat := 8

  // ---------- the standard ----------

  function WordAt(p: seq<byte>, i: nat): bv32
    requires 4 * i + 4 <= |p|
  {
    (p[4 * i] as bv32 << 24) | (p[4 * i + 1] as bv32 << 16) | (p[4 * i + 2] as bv32 << 8) | p[4 * i + 3] as bv32
  }

  function Mix(p: bv32, q: bv32, r: bv32, s: bv32): bv32 {
    (p ^ q ^ r ^ s).RotateLeft(1)
  }

  /** The message schedule. */
  function Schedule(p: seq<byte>, t: nat): bv32
    requires |p| == BLOCK
  {
    if t < 16 then WordAt(p, t)
    else Mix(Schedule(p, t - 3), Schedule(p, t - 8), Schedule(p, t - 14), Schedule(p, t - 16))
  }

  function Ch(x: bv32, y: bv32, z: bv32): bv32 { (x & y) ^ (!x & z) }
  function Parity(x: bv32, y: bv32, z: bv32): bv32 { x ^ y ^ z }
  function Maj(x: bv32, y: bv32, z: bv32): bv32 { (x & y) ^ (x & z) ^ (y & z) }

  function F(t: nat, x: bv32, y: bv32, z: bv32): bv32 {
    if t < 20 then Ch(x, y, z) else if t < 40 then Parity(x, y, z) else if t < 60 then Maj(x, y, z) else Parity(x, y, z)
  }

  function K(t: nat): bv32 {
    if t < 20 then 0x5A827999 else if t < 40 then 0x6ED9EBA1 else if t < 60 then 0x8F1BBCDC else 0xCA62C1D6
  }

  function Sum(a: bv32, b: bv32, c: bv32, d: bv32, e: bv32): bv32 { a + b + c + d + e }

  function Rot5(v: bv32): bv32 { v.RotateLeft(5) }
  function Rot30(v: bv32): bv32 { v.RotateLeft(30) }

  /** One round on the five working variables, given the schedule word. */
  function Round(t: nat, w: bv32, v: Words): Words {
    Words(Sum(Rot5(v.a), F(t, v.b, v.c, v.d), v.e, K(t), w), v.a, Rot30(v.b), v.c, v.d)
  }

  function Rounds(p: seq<byte>, t: nat, v: Words): Words
    requires |p| == BLOCK
  {
    if t == 0 then v else Round(t - 1, Schedule(p, t - 1), Rounds(p, t - 1, v))
  }

  function AddWords(h: Words, v: Words): Words {
    Words(h.a + v.a, h.b + v.b, h.c + v.c, h.d + v.d, h.e + v.e)
  }

  function Compress(h: Words, p: seq<byte>): Words {
    if |p| != BLOCK then h else AddWords(h, Rounds(p, 80, h))
  }

  // ---------- the code's own arithmetic ----------

  lemma ChAsOr(x: bv32, y: bv32, z: bv32)
    ensures (x & y) | (!x & z) == Ch(x, y, z)
  {
  }

  lemma MajAsOr(x: bv32, y: bv32, z: bv32)
    ensures (x & y) | (x & z) | (y & z) == Maj(x, y, z)
  {
  }

  lemma RotateByShifts(v: bv32)
    ensures (v << 1) | (v >> 31) == v.RotateLeft(1)
    ensures (v << 5) | (v >> 27) == v.RotateLeft(5)
    ensures (v << 30) | (v >> 2) == v.RotateLeft(30)
  {
  }

  method MixWords(p: bv32, q: bv32, r: bv32, s: bv32) returns (w: bv32)
    ensures w == Mix(p, q, r, s)
  {
    var x := p ^ q ^ r ^ s;
    RotateByShifts(x);
    w := (x << 1) | (x >> 31);
  }

  method RoundFunction(i: nat, b: bv32, d: bv32, e: bv32) returns (t: bv32)
    ensures t == F(i, b, d, e)
  {
    t := b ^ d ^ e;
    if i < 20 {
      t := (b & d) | (!b & e);
      ChAsOr(b, d, e);
      hide Ch;
    } else if 40 <= i < 60 {
      t := (b & d) | (b & e) | (d & e);
      MajAsOr(b, d, e);
      hide Maj;
    }
  }

  method Rol5(v: bv32) returns (r: bv32)
    ensures r == Rot5(v)
  {
    RotateByShifts(v);
    r := (v << 5) | (v >> 27);
  }

  method Rol30(v: bv32) returns (r: bv32)
    ensures r == Rot30(v)
  {
    RotateByShifts(v);
    r := (v << 30) | (v >> 2);
  }

  /** One pass of the round loop. */
  method RoundStep(i: nat, w: bv32, v: Words) returns (r: Words)
    ensures r == Round(i, w, v)
  {
    hide F, K, Sum, Rot5, Rot30;
    var t := RoundFunction(i, v.b, v.c, v.d);
    var a5 := Rol5(v.a);
    var b30 := Rol30(v.b);
    r := Words(Sum(a5, t, v.e, K(i), w), v.a, b30, v.c, v.d);
  }

  /** The schedule in an 80-word buffer. */
  method ExpandBlock(p: seq<byte>) returns (w: array<bv32>)
    requires |p| == BLOCK
    ensures fresh(w) && w.Length == 80 && forall t :: 0 <= t < 80 ==> w[t] == Schedule(p, t)
  {
    hide Mix, WordAt;
    w := new bv32[80](_ => 0);
    for i := 0 to 16
      invariant forall t :: 0 <= t < i ==> w[t] == Schedule(p, t)
    {
      w[i] := WordAt(p, i);
    }
    for i := 16 to 80
      invariant forall t :: 0 <= t < i ==> w[t] == Schedule(p, t)
    {
      w[i] := MixWords(w[i - 3], w[i - 8], w[i - 14], w[i - 16]);
    }
  }

  /** sha1_block: eighty rounds over the expanded block. */
  method HashBlock(h: Words, p: seq<byte>) returns (r: Words)
    requires |p| == BLOCK
    ensures r == Compress(h, p)
  {
    hide Round, Mix, WordAt, Schedule, AddWords;
    var w := ExpandBlock(p);
    var v := h;
    for i := 0 to 80
      invariant v == Rounds(p, i, h)
      invariant forall t :: 0 <= t < 80 ==> w[t] == Schedule(p, t)
    {
      v := RoundStep(i, w[i], v);
    }
    r := AddWords(h, v);
  }

  function WordBytes(w: bv32): (r: seq<byte>)
    ensures |r| == 4
  {
    [(w >> 24) as bv8 as byte, ((w >> 16) & 0xFF) as bv8 as byte, ((w >> 8) & 0xFF) as bv8 as byte, (w & 0xFF) as bv8 as byte]
  }

  function DigestBytes(h: Words): (r: seq<byte>)
    ensures |r| == 20
  {
    WordBytes(h.a) + WordBytes(h.b) + WordBytes(h.c) + WordBytes(h.d) + WordBytes(h.e)
  }

  /** SHA-1 of a message, as FIPS 180-4 defines it. */
  function Digest(msg: seq<byte>): seq<byte> {
    DigestBytes(HashOf(Compress, IV, BLOCK, LENGTH_BYTES, msg))
  }

  class Context {
    var state: Words
    var count: nat
    const buf: array<byte>
    var buflen: nat
    /** Everything fed in so far. */
    ghost var msg: seq<byte>

    ghost predicate Valid()
      reads this, buf
    {
      && buf.Length == BLOCK && buflen == |msg| % 64 && count == Mod64(8 * |msg|)
      && state == Chain(Compress, IV, BLOCK, msg[..|msg| - buflen])
      && buf[..buflen] == msg[|msg| - buflen..]
    }

    constructor ()
      ensures Valid() && msg == [] && fresh(buf)
    {
      state, count, buflen, msg := IV, 0, 0, [];
      buf := new byte[BLOCK](_ => 0);
    }

    method Copy(piece: seq<byte>)
      requires buf.Length == BLOCK && buflen + |piece| <= BLOCK
      modifies buf
      ensures buf[..buflen + |piece|] == old(buf[..buflen]) + piece
    {
      for i := 0 to |piece|
        invariant buf[..buflen + i] == old(buf[..buflen]) + piece[..i]
      {
        buf[buflen + i] := piece[i];
        assert buf[..buflen + i + 1] == buf[..buflen + i] + [piece[i]];
      }
      assert piece[..|piece|] == piece;
    }

    /** One piece that fits in the buffer, hashed when it fills it. */
    method Take(piece: seq<byte>)
      requires Valid() && buflen + |piece| <= BLOCK
      modifies this`state, this`count, this`buflen, this`msg, buf
      ensures Valid() && msg == old(msg) + piece
    {
      hide Compress, Chain, Mod64;
      ghost var was, cut := msg, |msg| - buflen;
      Copy(piece);
      buflen := buflen + |piece|;
      Mod64Add(8 * |msg|, 8 * |piece|);
      count := Mod64(count + 8 * |piece|);
      msg := was + piece;
      assert buf[..buflen] == msg[cut..] && msg[..cut] == was[..cut];
      if buflen == BLOCK { HashBuffer(cut); }
    }

    /** The full buffer is folded into the state. */
    method HashBuffer(ghost cut: nat)
      requires buf.Length == BLOCK == buflen && |msg| == cut + 64 && cut % 64 == 0 && buf[..buflen] == msg[cut..]
      requires state == Chain(Compress, IV, BLOCK, msg[..cut]) && count == Mod64(8 * |msg|)
      modifies this`state, this`buflen
      ensures Valid()
    {
      hide Compress, Chain, Mod64;
      var full := buf[..];
      assert full == msg[cut..];
      ChainOne(msg, cut);
      state := HashBlock(state, full);
      buflen := 0;
      assert msg[..|msg|] == msg;
    }

    lemma Room()
      requires Valid()
      ensures buflen < BLOCK && buflen == |msg| % 64
    {
    }

    method Update(data: seq<byte>)
      requires Valid()
      modifies this`state, this`count, this`buflen, this`msg, buf
      ensures Valid() && msg == old(msg) + data
    {
      hide Compress, Chain, Mod64, Valid;
      var at := 0;
      while at < |data|
        invariant Valid() && at <= |data| && msg == old(msg) + data[..at]
      {
        Room();
        var n := if 64 - buflen > |data| - at then |data| - at else 64 - buflen;
        assert data[..at] + data[at..at + n] == data[..at + n];
        Take(data[at..at + n]);
        at := at + n;
      }
      assert data[..|data|] == data;
    }

    method LengthBytes(bits: nat) returns (r: seq<byte>)
      ensures r == BigEndian(bits, 8)
    {
      r := [];
      for i := 0 to 8
        invariant r == BigEndian(bits, 8)[..i]
      {
        BigEndianAt(bits, 8, i);
        r := r + [ShiftBytes(bits, 7 - i) % 256];
      }
    }

    ghost predicate Padding(m: seq<byte>, zeros: nat)
      reads this
    {
      msg == m + [0x80] + Zeros(zeros)
    }

    method PadZero(ghost m: seq<byte>, ghost zeros: nat)
      requires Valid() && Padding(m, zeros)
      modifies this`state, this`count, this`buflen, this`msg, buf
      ensures Valid() && Padding(m, zeros + 1) && buflen == Filled(|m|, zeros + 1)
    {
      hide Compress, Chain, Mod64, ZeroFill, Valid;
      Update([0]);
      Room();
      assert Zeros(zeros + 1) == Zeros(zeros) + [0];
      assert msg == m + [0x80] + Zeros(zeros + 1);
    }

    /** 0x80, then zeros one at a time until eight bytes are missing from the block. */
    method PadZeros()
      requires Valid()
      modifies this`state, this`count, this`buflen, this`msg, buf
      ensures Valid() && buflen == 56
      ensures msg == old(msg) + [0x80] + Zeros(ZeroFill(|old(msg)|, BLOCK, LENGTH_BYTES))
    {
      hide Compress, Chain, Mod64, ZeroFill, Valid, Padding, Filled;
      ghost var m := msg;
      ghost var fill := ZeroFill(|m|, BLOCK, LENGTH_BYTES);
      PadFirst();
      ghost var zeros: nat := 0;
      while buflen != 56
        invariant Valid() && Padding(m, zeros) && zeros <= fill && buflen == Filled(|m|, zeros)
        decreases fill - zeros
      {
        FillEnds(|m|, zeros);
        PadZero(m, zeros);
        zeros := zeros + 1;
      }
      FillEnds(|m|, zeros);
      Padded(m, zeros);
    }

    lemma Padded(m: seq<byte>, zeros: nat)
      requires Padding(m, zeros)
      ensures msg == m + [0x80] + Zeros(zeros)
    {
    }

    method PadFirst()
      requires Valid()
      modifies this`state, this`count, this`buflen, this`msg, buf
      ensures Valid() && Padding(old(msg), 0) && buflen == Filled(|old(msg)|, 0)
    {
      hide Compress, Chain, Mod64, Valid;
      ghost var m := msg;
      Update([0x80]);
      Room();
      assert msg == m + [0x80] + Zeros(0);
    }

    /** Pads through `Update`, then serialises the state. */
    method Final() returns (out: seq<byte>)
      requires Valid()
      modifies this`state, this`count, this`buflen, this`msg, buf
      ensures 8 * |old(msg)| < TWO64 ==> out == Digest(old(msg))
    {
      hide Compress, Chain, Mod64, WordBytes;
      ghost var m := msg;
      var bits := count;
      PadZeros();
      var lenbuf := LengthBytes(bits);
      Update(lenbuf);
      assert 8 * |m| < TWO64 ==> msg == Pad(m, BLOCK, LENGTH_BYTES);
      assert msg[..|msg|] == msg;
      out := DigestBytes(state);
    }
  }

  /** How full the buffer is after a message of `len` bytes, 0x80 and some zeros. */
  function Filled(len: nat, zeros: nat): nat {
    (len + 1 + zeros) % 64
  }

  lemma FillEnds(len: nat, zeros: nat)
    requires zeros <= ZeroFill(len, BLOCK, LENGTH_BYTES)
    ensures Filled(len, zeros) == 56 <==> zeros == ZeroFill(len, BLOCK, LENGTH_BYTES)
  {
  }

  lemma ChainOne(msg: seq<byte>, cut: nat)
    requires |msg| == cut + 64 && cut % 64 == 0
    ensures Chain(Compress, IV, BLOCK, msg) == Compress(Chain(Compress, IV, BLOCK, msg[..cut]), msg[cut..])
  {
    hide Compress;
    ChainAppend(Compress, IV, BLOCK, msg[..cut], msg[cut..]);
    assert msg == msg[..cut] + msg[cut..];
    assert msg[cut..][..BLOCK] == msg[cut..] && msg[cut..][BLOCK..] == [];
  }
}
