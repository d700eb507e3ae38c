/**
  Base64 as the app's transport uses it for characteristic values (app/src/protocol/frames.ts)
  and as the simulator's handshake writes it (firmware/sim/src/ws_server.c).
 */
module Base64 {
  import opened Bytes

  type sextet = x: int | 0 <= x < 64

  function Letter(i: sextet): char {
    if i < 26 then 'A' + i as char
    else if i < 52 then 'a' + (i - 26) as char
    else if i < 62 then '0' + (i - 52) as char
    else if i == 62 then '+' else '/'
  }

  predicate IsLetter(c: char) {
    'A' <= c <= 'Z' || 'a' <= c <= 'z' || '0' <= c <= '9' || c == '+' || c == '/'
  }

  function IndexOf(c: char): sextet
    requires IsLetter(c)
  {
    if 'A' <= c <= 'Z' then (c - 'A') as int
    else if 'a' <= c <= 'z' then (c - 'a') as int + 26
    else if '0' <= c <= '9' then (c - '0') as int + 52
    else if c == '+' then 62 else 63
  }

  lemma LettersInvert(i: sextet)
    ensures IsLetter(Letter(i)) && IndexOf(Letter(i)) == i && Letter(i) != '='
  {
  }

  /** Three bytes as one 24-bit number, missing ones as zero. */
  function Triple(b: seq<byte>): (t: nat)
    requires 1 <= |b| <= 3
    ensures t < 0x100_0000
  {
    b[0] as int * 0x1_0000 + (if |b| > 1 then b[1] as int * 0x100 else 0) + if |b| > 2 then b[2] as int else 0
  }

  /** The four characters for up to three bytes. */
  function Quad(b: seq<byte>): (s: string)
    requires 1 <= |b| <= 3
    ensures |s| == 4
  {
    var t := Triple(b);
    [Letter(t / 0x4_0000 % 64), Letter(t / 0x1000 % 64),
     if |b| > 1 then Letter(t / 64 % 64) else '=', if |b| > 2 then Letter(t % 64) else '=']
  }

  function Encode(b: seq<byte>): (s: string)
    ensures |s| == 4 * ((|b| + 2) / 3)
  {
    if b == [] then "" else if |b| <= 3 then Quad(b) else Quad(b[..3]) + Encode(b[3..])
  }

  /** The characters for the bytes at `i`, out-of-range ones reading as zero. */
  method QuadAt(bytes: seq<byte>, i: nat) returns (quad: string)
    requires i < |bytes|
    ensures quad == Quad(if i + 3 <= |bytes| then bytes[i..i + 3] else bytes[i..])
  {
    hide Letter;
    var b0: nat, b1: nat, b2: nat := bytes[i] as int, 0, 0;
    if i + 1 < |bytes| { b1 := bytes[i + 1] as int; }
    if i + 2 < |bytes| { b2 := bytes[i + 2] as int; }
    var triple := b0 * 0x1_0000 + b1 * 0x100 + b2;
    assert triple == Triple(if i + 3 <= |bytes| then bytes[i..i + 3] else bytes[i..]);
    quad := [Letter(triple / 0x4_0000 % 64), Letter(triple / 0x1000 % 64),
             if i + 1 < |bytes| then Letter(triple / 64 % 64) else '=',
             if i + 2 < |bytes| then Letter(triple % 64) else '='];
  }

  method EncodeBytes(bytes: seq<byte>) returns (out: string)
    ensures out == Encode(bytes)
  {
    hide Quad;
    out := "";
    var i := 0;
    while i < |bytes|
      invariant Encode(bytes) == out + if i < |bytes| then Encode(bytes[i..]) else ""
      decreases |bytes| - i
    {
      var quad := QuadAt(bytes, i);
      ghost var rest := bytes[i..];
      if i + 3 <= |bytes| { assert rest[..3] == bytes[i..i + 3] && rest[3..] == bytes[i + 3..]; }
      if i + 3 == |bytes| { assert rest == rest[..3]; }
      assert Encode(rest) == quad + if i + 3 < |bytes| then Encode(bytes[i + 3..]) else "";
      out := out + quad;
      i := i + 3;
    }
  }

  /** Everything that is not a letter of the alphabet is dropped, padding included. */
  function Clean(s: string): (c: string)
    ensures forall k :: 0 <= k < |c| ==> IsLetter(c[k])
  {
    if s == "" then "" else (if IsLetter(s[0]) then [s[0]] else []) + Clean(s[1..])
  }

  /** The bytes of up to four letters. */
  function Group(c: string): seq<byte>
    requires 1 <= |c| <= 4 && forall k :: 0 <= k < |c| ==> IsLetter(c[k])
  {
    var t: nat := IndexOf(c[0]) as int * 0x4_0000 + (if |c| > 1 then IndexOf(c[1]) as int * 0x1000 else 0)
           + (if |c| > 2 then IndexOf(c[2]) as int * 64 else 0) + if |c| > 3 then IndexOf(c[3]) as int else 0;
    [t / 0x1_0000 % 256] + (if |c| > 2 then [t / 0x100 % 256] else []) + if |c| > 3 then [t % 256] else []
  }

  function DecodeLetters(c: string): seq<byte>
    requires forall k :: 0 <= k < |c| ==> IsLetter(c[k])
  {
    if c == "" then [] else if |c| <= 4 then Group(c) else Group(c[..4]) + DecodeLetters(c[4..])
  }

  function Decode(s: string): seq<byte> {
    DecodeLetters(Clean(s))
  }

  method DecodeText(b64: string) returns (out: seq<byte>)
    ensures out == Decode(b64)
  {
    hide Group, IsLetter;
    var clean := Clean(b64);
    out := [];
    var i := 0;
    while i < |clean|
      invariant DecodeLetters(clean) == out + if i < |clean| then DecodeLetters(clean[i..]) else []
      decreases |clean| - i
    {
      ghost var rest := clean[i..];
      var bytes := BytesAt(clean, i);
      if i + 4 <= |clean| { assert rest[..4] == clean[i..i + 4] && rest[4..] == clean[i + 4..]; }
      if i + 4 == |clean| { assert rest == rest[..4]; }
      assert DecodeLetters(rest) == bytes + if i + 4 < |clean| then DecodeLetters(clean[i + 4..]) else [];
      out := out + bytes;
      i := i + 4;
    }
  }

  /** The bytes of the group at `i`; a missing third or fourth letter writes no byte. */
  method BytesAt(clean: string, i: nat) returns (out: seq<byte>)
    requires i < |clean| && forall k :: 0 <= k < |clean| ==> IsLetter(clean[k])
    ensures out == Group(if i + 4 <= |clean| then clean[i..i + 4] else clean[i..])
  {
    hide IndexOf, IsLetter;
    var c0: nat, c1: nat, c2, c3 := IndexOf(clean[i]) as int, 0, -1, -1;
    if i + 1 < |clean| { c1 := IndexOf(clean[i + 1]) as int; }
    if i + 2 < |clean| { c2 := IndexOf(clean[i + 2]) as int; }
    if i + 3 < |clean| { c3 := IndexOf(clean[i + 3]) as int; }
    var triple: nat := c0 * 0x4_0000 + c1 * 0x1000 + (if c2 < 0 then 0 else c2 * 64) + if c3 < 0 then 0 else c3;
    out := [triple / 0x1_0000 % 256];
    if c2 >= 0 { out := out + [triple / 0x100 % 256]; }
    if c3 >= 0 { out := out + [triple % 256]; }
  }

  lemma {:induction false} CleanSplits(s: string, t: string)
    ensures Clean(s + t) == Clean(s) + Clean(t)
    decreases |s|
  {
    if s == "" {
      assert s + t == t;
    } else {
      assert (s + t)[1..] == s[1..] + t;
      CleanSplits(s[1..], t);
    }
  }

  /** A 24-bit number in base 64 and back in base 256. */
  lemma Digits(t: nat)
    requires t < 0x100_0000
    ensures t == t / 0x4_0000 % 64 * 0x4_0000 + t / 0x1000 % 64 * 0x1000 + t / 64 % 64 * 64 + t % 64
  {
    var a := t / 64;
    var b := a / 64;
    assert t / 0x1000 == b && t / 0x4_0000 == b / 64;
  }

  lemma BytesOf(t: nat, b0: nat, b1: nat, b2: nat)
    requires t == b0 * 0x1_0000 + b1 * 0x100 + b2 && b0 < 256 && b1 < 256 && b2 < 256
    ensures t / 0x1_0000 % 256 == b0 && t / 0x100 % 256 == b1 && t % 256 == b2
  {
    assert t / 0x100 == b0 * 0x100 + b1;
  }

  /** Missing bytes leave the sextets past the last one written zero. */
  lemma LowSextets(t: nat, b0: nat, b1: nat)
    requires t == b0 * 0x1_0000 + b1 * 0x100
    ensures t % 64 == 0 && (b1 == 0 ==> t / 64 % 64 == 0)
  {
    assert t == 64 * (b0 * 1024 + b1 * 4);
    if b1 == 0 { assert t / 64 == 64 * (b0 * 16); }
  }

  /** One group comes back: padding is dropped and the rest names the bytes. */
  lemma GroupBack(b: seq<byte>)
    requires 1 <= |b| <= 3
    ensures Clean(Quad(b)) != "" && |Clean(Quad(b))| == |b| + 1 && Group(Clean(Quad(b))) == b
  {
    hide Letter, IndexOf, IsLetter, Clean;
    var t := Triple(b);
    var b0, b1, b2 := b[0] as int, if |b| > 1 then b[1] as int else 0, if |b| > 2 then b[2] as int else 0;
    Digits(t);
    BytesOf(t, b0, b1, b2);
    if |b| < 3 { LowSextets(t, b0, b1); }
    LettersInvert(t / 0x4_0000 % 64);
    LettersInvert(t / 0x1000 % 64);
    LettersInvert(t / 64 % 64);
    LettersInvert(t % 64);
    PaddingDrops(Quad(b), |b| + 1);
  }

  lemma PaddingDrops(s: string, n: nat)
    requires n <= |s| && (forall k :: 0 <= k < n ==> IsLetter(s[k])) && forall k :: n <= k < |s| ==> s[k] == '='
    ensures Clean(s) == s[..n]
    decreases |s|
  {
    if s != "" { PaddingDrops(s[1..], if n > 0 then n - 1 else 0); }
  }

  lemma {:induction false} DecodeSplits(c: string, d: string)
    requires |c| == 4 && forall k :: 0 <= k < |c| ==> IsLetter(c[k])
    requires d != "" && forall k :: 0 <= k < |d| ==> IsLetter(d[k])
    ensures DecodeLetters(c + d) == Group(c) + DecodeLetters(d)
  {
    assert (c + d)[..4] == c && (c + d)[4..] == d;
  }

  /** Whatever bytes the transport is given, the other side reads exactly those. */
  lemma {:induction false} RoundTrip(b: seq<byte>)
    ensures Decode(Encode(b)) == b
    ensures b != [] ==> Clean(Encode(b)) != ""
    decreases |b|
  {
    hide Quad, Group;
    if b == [] {
    } else if |b| <= 3 {
      GroupBack(b);
    } else {
      var head, tail := b[..3], b[3..];
      GroupBack(head);
      RoundTrip(tail);
      CleanSplits(Quad(head), Encode(tail));
      DecodeSplits(Clean(Quad(head)), Clean(Encode(tail)));
      assert b == head + tail;
    }
  }
}
