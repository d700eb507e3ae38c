/**
  Merkle-Damgard hashing: a message is padded to whole blocks and the blocks are folded
  through a compression function (FIPS 180-4, sections 5.1 and 6).
 */
module Hashing {
  import opened Bytes

  /** SHA-1 works on 64-byte blocks, SHA-512 on 128-byte ones. */
  type BlockSize = n: nat | n == 64 || n == 128 witness 64

  /** `n` modulo the block size. */
  function Rem(n: nat, size: BlockSize): (r: nat)
    ensures r < size && r <= n
  {
    if size == 64 then n % 64 else n % 128
  }

  /** Folds `f` over the whole blocks of `data`; a trailing partial block is ignored. */
  function Chain<S>(f: (S, seq<byte>) -> S, h: S, size: BlockSize, data: seq<byte>): S
    decreases |data|
  {
    if |data| < size then h else Chain(f, f(h, data[..size]), size, data[size..])
  }

  lemma {:induction false} ChainAppend<S>(f: (S, seq<byte>) -> S, h: S, size: BlockSize, a: seq<byte>, b: seq<byte>)
    requires Rem(|a|, size) == 0
    ensures Chain(f, h, size, a + b) == Chain(f, Chain(f, h, size, a), size, b)
    decreases |a|
  {
    if |a| < size {
      assert a + b == b;
    } else {
      assert (a + b)[..size] == a[..size] && (a + b)[size..] == a[size..] + b;
      ChainAppend(f, f(h, a[..size]), size, a[size..], b);
    }
  }

  /** A trailing partial block changes nothing. */
  lemma ChainIgnoresTail<S>(f: (S, seq<byte>) -> S, h: S, size: BlockSize, a: seq<byte>, tail: seq<byte>)
    requires Rem(|a|, size) == 0 && |tail| < size
    ensures Chain(f, h, size, a + tail) == Chain(f, h, size, a)
  {
    ChainAppend(f, h, size, a, tail);
  }

  /** The smallest number of zero bytes that makes the padded message whole blocks. */
  function ZeroFill(len: nat, size: BlockSize, lengthBytes: nat): (k: nat)
    ensures Rem(len + 1 + k + lengthBytes, size) == 0 && k < size
  {
    var over := Rem(len + 1 + lengthBytes, size);
    if over == 0 then 0 else size - over
  }

  /** The message, a one bit, zeros, and the bit length as a big-endian integer. */
  function Pad(msg: seq<byte>, size: BlockSize, lengthBytes: nat): seq<byte> {
    msg + [0x80] + Zeros(ZeroFill(|msg|, size, lengthBytes)) + BigEndian(8 * |msg|, lengthBytes)
  }

  /** The digest state of a whole message. */
  function HashOf<S>(f: (S, seq<byte>) -> S, iv: S, size: BlockSize, lengthBytes: nat, msg: seq<byte>): S {
    Chain(f, iv, size, Pad(msg, size, lengthBytes))
  }
}

/** Streaming SHA-512 (firmware/components/core/mc_crypto.c). The compression function is
    a parameter. */
module Sha512 {
  import opened Bytes
  import opened Hashing

  const BLOCK: nat := 128
  const LENGTH_BYTES: nat := 16

  const IV: seq<byte> := [
    0x6a, 0x09, 0xe6, 0x67, 0xf3, 0xbc, 0xc9, 0x08, 0xbb, 0x67, 0xae, 0x85, 0x84, 0xca, 0xa7, 0x3b,
    0x3c, 0x6e, 0xf3, 0x72, 0xfe, 0x94, 0xf8, 0x2b, 0xa5, 0x4f, 0xf5, 0x3a, 0x5f, 0x1d, 0x36, 0xf1,
    0x51, 0x0e, 0x52, 0x7f, 0xad, 0xe6, 0x82, 0xd1, 0x9b, 0x05, 0x68, 0x8c, 0x2b, 0x3e, 0x6c, 0x1f,
    0x1f, 0x83, 0xd9, 0xab, 0xfb, 0x41, 0xbd, 0x6b, 0x5b, 0xe0, 0xcd, 0x19, 0x13, 0x7e, 0x21, 0x79]

  type Compress = (seq<byte>, seq<byte>) -> seq<byte>

  /** SHA-512 of a message, as FIPS 180-4 defines it over the compression function. */
  function Digest(f: Compress, msg: seq<byte>): seq<byte> {
    HashOf(f, IV, BLOCK, LENGTH_BYTES, msg)
  }

  /** The tail the firmware hashes at the end: the leftover bytes, 0x80, zeros, the carry
      byte of the bit length and the low 64 bits of it, in one block or two. */
  function Tail(rest: seq<byte>, total: nat): (r: seq<byte>)
    requires |rest| < BLOCK && total < TWO64
  {
    var n := if |rest| < 112 then 128 else 256;
    rest + [0x80] + Zeros(n - 9 - |rest| - 1) + [total / 0x2000_0000_0000_0000] + BigEndian(Mod64(8 * total), 8)
  }

  lemma WholeBlocks(n: nat)
    ensures Rem(n - n % BLOCK, BLOCK) == 0
  {
  }

  lemma LengthField(total: nat)
    requires total < TWO64
    ensures BigEndian(8 * total, 16) == Zeros(7) + [total / 0x2000_0000_0000_0000] + BigEndian(Mod64(8 * total), 8)
  {
    Mod64Is(8 * total);
    BigEndian64(8 * total, 8);
    assert 8 * total / TWO64 == total / 0x2000_0000_0000_0000;
    BigEndianSmall(8 * total / TWO64, 8);
  }

  lemma FillIs(len: nat)
    ensures var rest := len % BLOCK; ZeroFill(len, BLOCK, LENGTH_BYTES) == (if rest < 112 then 111 else 239) - rest
  {
  }

  /** The whole blocks already hashed, followed by the tail, are the padded message. */
  lemma TailCompletesPadding(msg: seq<byte>)
    requires |msg| < TWO64
    ensures var cut := |msg| - |msg| % BLOCK; Pad(msg, BLOCK, LENGTH_BYTES) == msg[..cut] + Tail(msg[cut..], |msg|)
  {
    hide BigEndian, Mod64, ZeroFill, Tail;
    var cut := |msg| - |msg| % BLOCK;
    FillIs(|msg|);
    LengthField(|msg|);
    TailIs(msg[cut..], |msg|, ZeroFill(|msg|, BLOCK, LENGTH_BYTES));
    assert msg == msg[..cut] + msg[cut..];
    Regroup(msg[..cut], msg[cut..], [0x80], Zeros(ZeroFill(|msg|, BLOCK, LENGTH_BYTES)), BigEndian(8 * |msg|, 16));
  }

  lemma TailIs(rest: seq<byte>, total: nat, k: nat)
    requires |rest| < BLOCK && total < TWO64 && k == (if |rest| < 112 then 111 else 239) - |rest|
    ensures Tail(rest, total) ==
            rest + [0x80] + Zeros(k) + (Zeros(7) + [total / 0x2000_0000_0000_0000] + BigEndian(Mod64(8 * total), 8))
  {
    hide BigEndian, Mod64;
    var n := if |rest| < 112 then 128 else 256;
    assert Zeros(n - 9 - |rest| - 1) == Zeros(k) + Zeros(7);
  }

  lemma Regroup(a: seq<byte>, b: seq<byte>, c: seq<byte>, d: seq<byte>, e: seq<byte>)
    ensures a + b + c + d + e == a + (b + c + d + e)
  {
  }

  lemma DigestSplits(f: Compress, msg: seq<byte>)
    requires |msg| < TWO64
    ensures var cut := |msg| - |msg| % BLOCK;
            Digest(f, msg) == Chain(f, Chain(f, IV, BLOCK, msg[..cut]), BLOCK, Tail(msg[cut..], |msg|))
  {
    var cut := |msg| - |msg| % BLOCK;
    TailCompletesPadding(msg);
    WholeBlocks(|msg|);
    ChainAppend(f, IV, BLOCK, msg[..cut], Tail(msg[cut..], |msg|));
  }

  class Context {
    const compress: Compress
    var h: seq<byte>
    const block: array<byte>
    var blockLen: nat
    var totalLen: nat
    /** Everything fed in so far. */
    ghost var msg: seq<byte>

    ghost predicate Valid()
      reads this, block
    {
      Covers(msg) && totalLen == Mod64(|msg|)
    }

    /** `h` covers all whole blocks of `m` and `block` holds the remainder. */
    ghost predicate Covers(m: seq<byte>)
      reads `h, `blockLen, block
    {
      && block.Length == BLOCK && blockLen == |m| % BLOCK
      && h == Chain(compress, IV, BLOCK, m[..|m| - blockLen])
      && block[..blockLen] == m[|m| - blockLen..]
    }

    constructor (compress: Compress)
      ensures Valid() && msg == [] && this.compress == compress && fresh(block)
    {
      this.compress := compress;
      h, blockLen, totalLen, msg := IV, 0, 0, [];
      block := new byte[BLOCK](_ => 0);
    }

    /** mc_crypto_hash_sha512_init on an existing context. */
    method Reset()
      requires block.Length == BLOCK
      modifies this`h, this`blockLen, this`totalLen, this`msg
      ensures Valid() && msg == []
    {
      h, blockLen, totalLen, msg := IV, 0, 0, [];
    }

    /** Hashes every whole block of `data`; returns how many bytes are left over. */
    method HashBlocks(data: seq<byte>) returns (left: nat)
      modifies this`h
      ensures left == |data| % BLOCK && h == Chain(compress, old(h), BLOCK, data)
    {
      var at := 0;
      while |data| - at >= BLOCK
        invariant at <= |data| && at % BLOCK == 0
        invariant Chain(compress, old(h), BLOCK, data) == Chain(compress, h, BLOCK, data[at..])
      {
        assert data[at..][..BLOCK] == data[at..at + BLOCK] && data[at..][BLOCK..] == data[at + BLOCK..];
        h := compress(h, data[at..at + BLOCK]);
        at := at + BLOCK;
      }
      left := |data| - at;
    }

    /** Copies `data` into the block buffer at `at`. */
    method Fill(data: seq<byte>, at: nat)
      requires block.Length == BLOCK && at + |data| <= BLOCK
      modifies block
      ensures block[..at + |data|] == old(block[..at]) + data
    {
      for i := 0 to |data|
        invariant block[..at + i] == old(block[..at]) + data[..i]
      {
        block[at + i] := data[i];
        assert block[..at + i + 1] == block[..at + i] + [data[i]];
      }
      assert data[..|data|] == data;
    }

    /** Tops up a partial block; hashes it once it is full. */
    method TopUp(data: seq<byte>, ghost m: seq<byte>) returns (used: nat)
      requires Covers(m) && blockLen > 0
      modifies this`h, this`blockLen, block
      ensures used <= |data| && Covers(m + data[..used]) && (used < |data| ==> blockLen == 0)
    {
      hide Chain;
      var need := BLOCK - blockLen;
      used := if |data| < need then |data| else need;
      ghost var cut := |m| - blockLen;
      Fill(data[..used], blockLen);
      blockLen := blockLen + used;
      assert block[..blockLen] == m[cut..] + data[..used];
      if blockLen == BLOCK {
        var full := block[..];
        assert full == m[cut..] + data[..used];
        var _ := HashBlocks(full);
        WholeBlocks(|m|);
        ChainAppend(compress, IV, BLOCK, m[..cut], full);
        assert m[..cut] + full == m + data[..used];
        blockLen := 0;
        assert (m + data[..used])[..|m| + used] == m + data[..used];
      } else {
        KeptPartial(m, data[..used], blockLen);
      }
    }

    /** Hashes whole blocks straight from `data` and keeps the rest, from an empty block. */
    method Absorb(data: seq<byte>, ghost m: seq<byte>)
      requires Covers(m) && blockLen == 0
      modifies this`h, this`blockLen, block
      ensures Covers(m + data)
    {
      var rest := data;
      if |data| >= BLOCK {
        var left := HashBlocks(data);
        rest := data[|data| - left..];
      }
      assert m[..|m|] == m;
      ChainAppend(compress, IV, BLOCK, m, data);
      assert h == Chain(compress, IV, BLOCK, m + data);
      if |rest| > 0 {
        Fill(rest, 0);
        blockLen := |rest|;
      }
      Remainder(m, data);
      ghost var all := m + data;
      assert all == all[..|all| - blockLen] + rest;
      WholeBlocks(|all|);
      ChainIgnoresTail(compress, IV, BLOCK, all[..|all| - blockLen], rest);
    }

    method Update(data: seq<byte>)
      requires Valid()
      modifies this`h, this`blockLen, this`totalLen, this`msg, block
      ensures Valid() && msg == old(msg) + data
    {
      hide Covers, Mod64;
      Mod64Add(|msg|, |data|);
      totalLen := Mod64(totalLen + |data|);
      Feed(data, msg);
      msg := msg + data;
    }

    method Feed(data: seq<byte>, ghost m: seq<byte>)
      requires Covers(m)
      modifies this`h, this`blockLen, block
      ensures Covers(m + data)
    {
      hide Chain;
      var used := 0;
      if blockLen > 0 {
        used := TopUp(data, m);
      } else {
        assert m + data[..0] == m;
      }
      assert m + data == m + data[..used] + data[used..];
      if used < |data| {
        Absorb(data[used..], m + data[..used]);
      } else {
        assert m + data == m + data[..used];
      }
    }

    /** Lays the leftover bytes and the padding out in `pad`; returns how much of it counts. */
    method LayTail(pad: array<byte>) returns (n: nat)
      requires Valid() && pad.Length == 256 && pad != block && forall j :: 0 <= j < 256 ==> pad[j] == 0
      modifies pad
      ensures n <= 256 && pad[..n] == Tail(block[..blockLen], totalLen)
    {
      hide BigEndian, Mod64, Chain;
      n := if blockLen < 112 then 128 else 256;
      for i := 0 to blockLen
        invariant pad[..i] == block[..i] && forall j :: i <= j < 256 ==> pad[j] == 0
      {
        pad[i] := block[i];
        assert pad[..i + 1] == pad[..i] + [block[i]] && block[..i + 1] == block[..i] + [block[i]];
      }
      pad[blockLen] := 0x80;
      pad[n - 9] := totalLen / 0x2000_0000_0000_0000;
      ghost var head := pad[..n - 8];
      assert head == block[..blockLen] + [0x80] + Zeros(n - 9 - blockLen - 1) + [totalLen / 0x2000_0000_0000_0000];
      StoreU64(pad, n - 8, Mod64(8 * totalLen));
      assert pad[..n] == head + BigEndian(Mod64(8 * totalLen), 8) by { assert pad[..n - 8] == head; }
    }

    /** Pads, hashes the tail and gives the digest; the context is spent. */
    method Final() returns (out: seq<byte>)
      requires Valid()
      modifies this`h
      ensures |msg| < TWO64 ==> out == Digest(compress, msg)
    {
      hide Digest, Tail, Chain, Mod64;
      ghost var cut := |msg| - |msg| % BLOCK;
      ghost var done, rest := h, block[..blockLen];
      assert done == Chain(compress, IV, BLOCK, msg[..cut]) && rest == msg[cut..];
      out := HashTail();
      if |msg| < TWO64 {
        assert out == Chain(compress, done, BLOCK, Tail(rest, |msg|));
        DigestSplits(compress, msg);
      }
    }

    method HashTail() returns (out: seq<byte>)
      requires Valid()
      modifies this`h
      ensures msg == old(msg) && out == Chain(compress, old(h), BLOCK, Tail(old(block[..blockLen]), old(totalLen)))
    {
      var pad := new byte[256](_ => 0);
      var n := LayTail(pad);
      var _ := HashBlocks(pad[..n]);
      out := h;
    }

    /** Stores a 64-bit value at `at`, most significant byte first, from the last byte back. */
    method StoreU64(pad: array<byte>, at: nat, value: nat)
      requires at + 8 <= pad.Length && value < TWO64
      modifies pad
      ensures pad[at..at + 8] == BigEndian(value, 8)
      ensures forall j :: 0 <= j < pad.Length && !(at <= j < at + 8) ==> pad[j] == old(pad[j])
    {
      var v := value;
      var i := 8;
      while i > 0
        invariant 0 <= i <= 8
        invariant BigEndian(value, 8) == BigEndian(v, i) + pad[at + i..at + 8]
        invariant forall j :: 0 <= j < pad.Length && !(at <= j < at + 8) ==> pad[j] == old(pad[j])
      {
        i := i - 1;
        ghost var low := pad[at + i + 1..at + 8];
        pad[at + i] := v % 256;
        assert pad[at + i..at + 8] == [v % 256] + low;
        assert BigEndian(v, i + 1) == BigEndian(v / 256, i) + [v % 256];
        v := v / 256;
      }
    }
  }

  lemma KeptPartial(was: seq<byte>, data: seq<byte>, blockLen: nat)
    requires blockLen == |was| % BLOCK + |data| && blockLen < BLOCK
    ensures var msg := was + data;
            && |msg| % BLOCK == blockLen
            && msg[..|msg| - blockLen] == was[..|was| - |was| % BLOCK]
            && msg[|msg| - blockLen..] == was[|was| - |was| % BLOCK..] + data
  {
  }

  lemma Remainder(done: seq<byte>, rest: seq<byte>)
    requires |done| % BLOCK == 0
    ensures |done + rest| % BLOCK == |rest| % BLOCK
    ensures (done + rest)[..|done + rest| - |rest| % BLOCK] == done + rest[..|rest| - |rest| % BLOCK]
  {
  }

  function Concat(chunks: seq<seq<byte>>): seq<byte> {
    if chunks == [] then [] else Concat(chunks[..|chunks| - 1]) + chunks[|chunks| - 1]
  }

  /** However a message is split into updates, its digest is that of the whole. */
  method HashChunks(compress: Compress, chunks: seq<seq<byte>>) returns (out: seq<byte>)
    ensures |Concat(chunks)| < TWO64 ==> out == Digest(compress, Concat(chunks))
  {
    var ctx := new Context(compress);
    for i := 0 to |chunks|
      invariant ctx.Valid() && ctx.compress == compress && fresh(ctx) && fresh(ctx.block) && ctx.msg == Concat(chunks[..i])
    {
      ctx.Update(chunks[i]);
      assert chunks[..i + 1][..i] == chunks[..i];
    }
    assert chunks[..|chunks|] == chunks;
    out := ctx.Final();
  }
}
