/**
  The simulator's WebSocket transport (firmware/sim/src/ws_server.c): the opening handshake
  of section 4.2.2 and the framing of section 5.2 of RFC 6455.
 */
module WebSocket {
  import opened Bytes
  import Base64
  import Sha1

  const BINARY: byte := 2
  const MAX_MESSAGE: nat := 8192
  const TWO63: nat := 0x8000_0000_0000_0000

  // ---------- big-endian lengths ----------

  function FromBigEndian(b: seq<byte>): nat {
    if b == [] then 0 else FromBigEndian(b[..|b| - 1]) * 256 + b[|b| - 1] as int
  }

  lemma {:induction false} BigEndianBack(v: nat, n: nat)
    requires v < Power256(n)
    ensures FromBigEndian(BigEndian(v, n)) == v
    decreases n
  {
    if n > 0 {
      assert v / 256 < Power256(n - 1) by { assert Power256(n) == 256 * Power256(n - 1); }
      BigEndianBack(v / 256, n - 1);
      var head := BigEndian(v / 256, n - 1);
      assert (head + [v % 256])[..n - 1] == head;
    }
  }

  // ---------- masking ----------

  function Pow2(n: nat): nat {
    if n == 0 then 1 else 2 * Pow2(n - 1)
  }

  /** Exclusive or of the low `n` bits. */
  function XorBits(a: nat, m: nat, n: nat): (r: nat)
    ensures r < Pow2(n)
    decreases n
  {
    if n == 0 then 0 else 2 * XorBits(a / 2, m / 2, n - 1) + if a % 2 == m % 2 then 0 else 1
  }

  function Xor(a: byte, m: byte): (r: byte) {
    assert Pow2(8) == 256;
    XorBits(a as int, m as int, 8)
  }

  lemma {:induction false} XorBitsTwice(a: nat, m: nat, n: nat)
    requires a < Pow2(n)
    ensures XorBits(XorBits(a, m, n), m, n) == a && XorBits(a, 0, n) == a
    decreases n
  {
    if n > 0 { XorBitsTwice(a / 2, m / 2, n - 1); }
  }

  lemma XorTwice(a: byte, m: byte)
    ensures Xor(Xor(a, m), m) == a && Xor(a, 0) == a
  {
    assert Pow2(8) == 256;
    XorBitsTwice(a as int, m as int, 8);
  }

  function Masked(data: seq<byte>, mask: seq<byte>): (r: seq<byte>)
    requires |mask| == 4
    ensures |r| == |data|
  {
    seq(|data|, i requires 0 <= i < |data| => Xor(data[i], mask[i % 4]))
  }

  lemma MaskTwice(data: seq<byte>, mask: seq<byte>)
    requires |mask| == 4
    ensures Masked(Masked(data, mask), mask) == data
  {
    forall i | 0 <= i < |data| ensures Masked(Masked(data, mask), mask)[i] == data[i] {
      XorTwice(data[i], mask[i % 4]);
    }
  }

  /** The receiver's unmasking loop, in place. */
  method Unmask(msg: array<byte>, len: nat, mask: seq<byte>)
    requires len <= msg.Length && |mask| == 4
    modifies msg
    ensures msg[..len] == Masked(old(msg[..len]), mask) && msg[len..] == old(msg[len..])
  {
    hide Xor;
    for i := 0 to len
      invariant forall k :: 0 <= k < i ==> msg[k] == Xor(old(msg[k]), mask[k % 4])
      invariant forall k :: i <= k < msg.Length ==> msg[k] == old(msg[k])
    {
      msg[i] := Xor(msg[i], mask[i % 4]);
    }
  }

  // ---------- frames ----------

  /** The length field: seven bits, or an extension of two or eight bytes. */
  function LengthField(len: nat): seq<byte> {
    if len < 126 then [len] else if len < 0x1_0000 then [126] + BigEndian(len, 2) else [127] + BigEndian(len, 8)
  }

  /** What the server puts on the wire: a final binary frame, not masked. */
  function ServerFrame(data: seq<byte>): seq<byte> {
    [0x80 + BINARY as int] + LengthField(|data|) + data
  }

  lemma TwoBytes(len: nat)
    requires len < 0x1_0000
    ensures BigEndian(len, 2) == [len / 256, len % 256]
  {
    assert BigEndian(len / 256, 1) == BigEndian(len / 256 / 256, 0) + [len / 256];
  }

  /** send_frame_locked. */
  method SendFrame(data: seq<byte>) returns (wire: seq<byte>)
    requires |data| < TWO64
    ensures wire == ServerFrame(data)
  {
    hide BigEndian;
    var len := |data|;
    var header: seq<byte> := [0x82];
    if len < 126 {
      header := header + [len];
    } else if len < 65536 {
      TwoBytes(len);
      header := header + [126] + [len / 256, len % 256];
    } else {
      var ext: seq<byte> := [];
      for i := 0 to 8
        invariant ext == BigEndian(len, 8)[..i]
      {
        BigEndianAt(len, 8, i);
        ext := ext + [ShiftBytes(len, 7 - i) % 256];
      }
      header := header + [127] + ext;
    }
    wire := header + data;
  }

  /** What a client sends: any opcode, masked with its own key. */
  function ClientFrame(opcode: nat, mask: seq<byte>, data: seq<byte>): seq<byte>
    requires opcode < 16 && |mask| == 4
  {
    var len := LengthField(|data|);
    [0x80 + opcode] + [0x80 + len[0] as int % 128] + len[1..] + mask + Masked(data, mask)
  }

  datatype Frame = Closed | Frame(opcode: nat, data: seq<byte>, rest: seq<byte>)

  /** How many bytes the length extension takes. */
  function ExtBytes(short: nat): nat {
    if short == 126 then 2 else if short == 127 then 8 else 0
  }

  /** read_frame on what is left of the stream; it stops where the stream ends early. */
  function ReadFrame(stream: seq<byte>, cap: nat): Frame {
    if |stream| < 2 then Closed
    else
      var short := stream[1] as int % 128;
      var masked := stream[1] >= 128;
      var at := 2 + ExtBytes(short);
      if |stream| < at then Closed
      else
        var len := if short < 126 then short else FromBigEndian(stream[2..at]);
        var start := at + if masked then 4 else 0;
        if len > cap || |stream| < start + len then Closed
        else
          var raw := stream[start..start + len];
          Frame(stream[0] as int % 16, if masked then Masked(raw, stream[at..at + 4]) else raw, stream[start + len..])
  }

  lemma LengthBack(len: nat)
    requires len < TWO64
    ensures var f := LengthField(len);
            && |f| == 1 + ExtBytes(f[0] as int) && f[0] < 128
            && len == (if f[0] < 126 then f[0] as int else FromBigEndian(f[1..]))
  {
    assert Power256(2) == 0x1_0000 && Power256(8) == TWO64;
    if len < 0x1_0000 { BigEndianBack(len, 2); } else { BigEndianBack(len, 8); }
  }

  /** A client's frame is read back whole, whatever follows it, unless it is too long. */
  lemma ClientFrameBack(opcode: nat, mask: seq<byte>, data: seq<byte>, rest: seq<byte>, cap: nat)
    requires opcode < 16 && |mask| == 4 && |data| < TWO64
    ensures ReadFrame(ClientFrame(opcode, mask, data) + rest, cap) == if |data| <= cap then Frame(opcode, data, rest) else Closed
  {
    hide LengthField, FromBigEndian, Masked;
    LengthBack(|data|);
    MaskTwice(data, mask);
    var field := LengthField(|data|);
    var stream := ClientFrame(opcode, mask, data) + rest;
    var first, second: byte := 0x80 + opcode, 0x80 + field[0] as int;
    assert stream == [first] + [second] + field[1..] + mask + Masked(data, mask) + rest;
    Slices(stream, first, second, field[1..], mask, Masked(data, mask), rest);
  }

  lemma Slices(stream: seq<byte>, first: byte, second: byte, ext: seq<byte>, mask: seq<byte>, body: seq<byte>, rest: seq<byte>)
    requires stream == [first] + [second] + ext + mask + body + rest
    ensures var at, start := 2 + |ext|, 2 + |ext| + |mask|;
            && |stream| == start + |body| + |rest| && stream[0] == first && stream[1] == second
            && stream[2..at] == ext && stream[at..start] == mask
            && stream[start..start + |body|] == body && stream[start + |body|..] == rest
  {
  }

  /** A frame without a mask, split as its reader splits it. */
  lemma PlainFrame(first: byte, data: seq<byte>, rest: seq<byte>)
    requires |data| < TWO64
    ensures var stream, field := [first] + LengthField(|data|) + data + rest, LengthField(|data|);
            var start := 2 + ExtBytes(field[0] as int);
            && |stream| == start + |data| + |rest| && stream[0] == first && stream[1] == field[0] < 128
            && stream[2..start] == field[1..] && stream[start..start + |data|] == data && stream[start + |data|..] == rest
            && |data| == (if field[0] < 126 then field[0] as int else FromBigEndian(field[1..]))
  {
    hide LengthField, FromBigEndian;
    LengthBack(|data|);
    var field := LengthField(|data|);
    var stream := [first] + field + data + rest;
    assert stream == [first] + [field[0]] + field[1..] + [] + data + rest;
    Slices(stream, first, field[0], field[1..], [], data, rest);
  }

  lemma PlainFrameBack(first: byte, data: seq<byte>, rest: seq<byte>, cap: nat)
    requires |data| < TWO64
    ensures ReadFrame([first] + LengthField(|data|) + data + rest, cap) ==
            if |data| <= cap then Frame(first as int % 16, data, rest) else Closed
  {
    hide LengthField, FromBigEndian, Masked;
    PlainFrame(first, data, rest);
  }

  /** So is a server's frame. */
  lemma ServerFrameBack(data: seq<byte>, rest: seq<byte>, cap: nat)
    requires |data| < TWO64
    ensures ReadFrame(ServerFrame(data) + rest, cap) == if |data| <= cap then Frame(BINARY as int, data, rest) else Closed
  {
    hide ReadFrame, LengthField;
    PlainFrameBack(0x82, data, rest, cap);
  }

  datatype Sent = Sent(opcode: nat, mask: seq<byte>, data: seq<byte>)

  predicate Sendable(m: Sent) {
    m.opcode < 16 && |m.mask| == 4 && |m.data| <= MAX_MESSAGE
  }

  function Stream(ms: seq<Sent>): seq<byte>
    requires forall k :: 0 <= k < |ms| ==> Sendable(ms[k])
  {
    if ms == [] then []
    else
      assert Sendable(ms[0]);
      ClientFrame(ms[0].opcode, ms[0].mask, ms[0].data) + Stream(ms[1..])
  }

  const CLOSE := 8
  const PING := 9
  const PONG := 10

  /** The answer to a ping: its payload, unless that is too long for a short header. */
  function PongFrame(data: seq<byte>): seq<byte> {
    if |data| < 126 then [0x8A, |data|] + data else [0x8A, 0]
  }

  /** What a connection comes to: the messages handed on, and what was written back. */
  datatype Served = Served(messages: seq<seq<byte>>, wire: seq<byte>)
  {
    function Then(s: Served): Served {
      Served(messages + s.messages, wire + s.wire)
    }
  }

  /** One frame that does not close: a ping is answered, binary is handed on, the rest is ignored. */
  function Answer(opcode: nat, data: seq<byte>): Served {
    if opcode == PING then Served([], PongFrame(data))
    else if opcode == BINARY as int then Served([data], [])
    else Served([], [])
  }

  function Serve(stream: seq<byte>): Served
    decreases |stream|
  {
    match ReadFrame(stream, MAX_MESSAGE)
    case Closed => Served([], [])
    case Frame(opcode, data, rest) => if opcode == CLOSE then Served([], []) else Answer(opcode, data).Then(Serve(rest))
  }

  /** serve_connection after the handshake: frame after frame until a close or the stream's end. */
  method ServeConnection(stream: seq<byte>) returns (messages: seq<seq<byte>>, wire: seq<byte>)
    ensures Served(messages, wire) == Serve(stream)
  {
    hide ReadFrame;
    messages, wire := [], [];
    var left := stream;
    while true
      invariant Serve(stream) == Served(messages, wire).Then(Serve(left))
      decreases |left|
    {
      match ReadFrame(left, MAX_MESSAGE) {
        case Closed => return;
        case Frame(opcode, data, rest) =>
          RestIsShorter(left, MAX_MESSAGE);
          if opcode == CLOSE { return; }
          Associate(messages, wire, Answer(opcode, data), Serve(rest));
          if opcode == PING {
            wire := wire + PongFrame(data);
          } else if opcode == BINARY as int {
            messages := messages + [data];
          }
          left := rest;
      }
    }
  }

  lemma RestIsShorter(stream: seq<byte>, cap: nat)
    requires ReadFrame(stream, cap).Frame?
    ensures |ReadFrame(stream, cap).rest| < |stream|
  {
  }

  lemma Associate(messages: seq<seq<byte>>, wire: seq<byte>, a: Served, b: Served)
    ensures Served(messages, wire).Then(a.Then(b)) == Served(messages + a.messages, wire + a.wire).Then(b)
    ensures messages + [] == messages && wire + [] == wire
  {
  }

  // What should come of it, said of the frames a client sent and not of the bytes.

  /** The frames before the first close. */
  function BeforeClose(ms: seq<Sent>): seq<Sent> {
    if ms == [] || ms[0].opcode == CLOSE then [] else [ms[0]] + BeforeClose(ms[1..])
  }

  function Payloads(ms: seq<Sent>): seq<seq<byte>> {
    if ms == [] then [] else (if ms[0].opcode == BINARY as int then [ms[0].data] else []) + Payloads(ms[1..])
  }

  function Pongs(ms: seq<Sent>): seq<byte> {
    if ms == [] then [] else (if ms[0].opcode == PING then PongFrame(ms[0].data) else []) + Pongs(ms[1..])
  }

  /** Of frames sent back to back, exactly the binary ones before the first close are handed on,
      whole and in order, and exactly the pings before it are answered. */
  lemma {:induction false} StreamBack(ms: seq<Sent>)
    requires forall k :: 0 <= k < |ms| ==> Sendable(ms[k])
    ensures Serve(Stream(ms)) == Served(Payloads(BeforeClose(ms)), Pongs(BeforeClose(ms)))
    decreases |ms|
  {
    if ms != [] {
      hide ReadFrame, ClientFrame, PongFrame;
      StreamBack(ms[1..]);
      ClientFrameBack(ms[0].opcode, ms[0].mask, ms[0].data, Stream(ms[1..]), MAX_MESSAGE);
      assert BeforeClose(ms) != [] ==> BeforeClose(ms)[1..] == BeforeClose(ms[1..]);
    }
  }

  /** An answered ping gives its payload back, up to 125 bytes. */
  lemma PongBack(data: seq<byte>, rest: seq<byte>)
    ensures ReadFrame(PongFrame(data) + rest, MAX_MESSAGE) == Frame(PONG, if |data| < 126 then data else [], rest)
  {
    hide ReadFrame;
    var body := if |data| < 126 then data else [];
    assert PongFrame(data) == [0x8A] + LengthField(|body|) + body;
    PlainFrameBack(0x8A, body, rest, MAX_MESSAGE);
  }

  // ---------- the handshake ----------

  /** The key the server must prove it read: base64 of SHA-1 of the client's key and the GUID. */
  method AcceptKey(key: seq<byte>, guid: seq<byte>) returns (accept: string)
    ensures 8 * |key + guid| < TWO64 ==> accept == Base64.Encode(Sha1.Digest(key + guid))
  {
    var c := new Sha1.Context();
    c.Update(key + guid);
    assert [] + (key + guid) == key + guid;
    var digest := c.Final();
    accept := Base64.EncodeBytes(digest);
  }
}
