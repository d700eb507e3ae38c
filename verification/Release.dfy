/**
  A release from the signing tool to the board: the `.mcota` bundle (tools/sign-firmware.py,
  app/src/update/updateCheck.ts), the OTA frames (mc_session.c) and the client's upload loop
  (app/src/protocol/MotoClient.ts).
 */
module Release {
  import opened Bytes
  import opened Sha512
  import opened Ota

  const MAGIC: seq<byte> := [0x4D, 0x43, 0x4F, 0x54]
  const FORMAT: byte := 1
  const HEADER_BYTES: nat := 140
  const DIGEST_BYTES: nat := 64
  const CHUNK_BYTES: nat := 500

  datatype Firmware = Firmware(imageSize: nat, sha512: seq<byte>, signature: seq<byte>, image: seq<byte>)

  /** What the header's fixed-width fields can carry. */
  predicate Framed(b: Firmware) {
    b.imageSize < 0x1_0000_0000 && |b.sha512| == DIGEST_BYTES && |b.signature| == DIGEST_BYTES
  }

  // ---------- the bundle ----------

  datatype ParseError = TooShort | BadMagic | BadFormat(version: byte) | WrongSize(declared: nat)
  datatype Parsed = Bundle(firmware: Firmware) | Failed(error: ParseError)

  function Parse(buf: seq<byte>): (r: Parsed)
    ensures r.Bundle? ==> Framed(r.firmware) && |r.firmware.image| == r.firmware.imageSize
  {
    if |buf| < HEADER_BYTES then Failed(TooShort)
    else if buf[..4] != MAGIC then Failed(BadMagic)
    else if buf[4] != FORMAT then Failed(BadFormat(buf[4]))
    else
      var size := ReadU32le(buf, 8);
      var image := buf[HEADER_BYTES..];
      if |image| != size then Failed(WrongSize(size))
      else Bundle(Firmware(size, buf[12..76], buf[76..140], image))
  }

  /** The bundle file for a firmware image. */
  function Layout(b: Firmware): seq<byte> {
    MAGIC + [FORMAT] + [0, 0, 0] + U32le(b.imageSize) + b.sha512 + b.signature + b.image
  }

  lemma LayoutFields(b: Firmware)
    requires Framed(b)
    ensures var f := Layout(b);
            && |f| == HEADER_BYTES + |b.image| && f[..4] == MAGIC && f[4] == FORMAT && ReadU32le(f, 8) == b.imageSize
            && f[5..8] == [0, 0, 0] && f[12..76] == b.sha512 && f[76..140] == b.signature && f[HEADER_BYTES..] == b.image
  {
    var before := MAGIC + [FORMAT] + [0, 0, 0];
    var after := b.sha512 + b.signature + b.image;
    U32leRoundTrip(b.imageSize, before, after);
    var f := Layout(b);
    assert f == before + U32le(b.imageSize) + after;
    assert f[12..] == after;
  }

  /** The app reads back what the tool wrote, exactly when the declared size is the image's. */
  lemma ParseLayout(b: Firmware)
    requires Framed(b)
    ensures Parse(Layout(b)) == if |b.image| == b.imageSize then Bundle(b) else Failed(WrongSize(b.imageSize))
  {
    LayoutFields(b);
  }

  lemma U32leOfRead(buf: seq<byte>, at: nat)
    requires at + 4 <= |buf|
    ensures U32le(ReadU32le(buf, at)) == buf[at..at + 4]
  {
    hide U32le;
    U32leOfDigits(buf[at] as int, buf[at + 1] as int, buf[at + 2] as int, buf[at + 3] as int);
    assert buf[at..at + 4] == [buf[at], buf[at + 1], buf[at + 2], buf[at + 3]];
  }

  lemma U32leOfDigits(d0: nat, d1: nat, d2: nat, d3: nat)
    requires d0 < 256 && d1 < 256 && d2 < 256 && d3 < 256
    ensures U32le(d0 + 256 * d1 + 0x1_0000 * d2 + 0x100_0000 * d3) == [d0, d1, d2, d3]
  {
    var b := d2 + 256 * d3;
    var a := d1 + 256 * b;
    var v := d0 + 256 * a;
    FourDigits(v, d0, d1, d2, d3, a, b, d3, 0);
    LowDigit(d0, a);
    LowDigit(d1, b);
    LowDigit(d2, d3);
    LowDigit(d3, 0);
    assert v / 256 == a && v / 0x1_0000 == b && v / 0x100_0000 == d3;
  }

  lemma LowDigit(d: nat, q: nat)
    requires d < 256
    ensures (d + 256 * q) % 256 == d && (d + 256 * q) / 256 == q
  {
  }

  /** An accepted file is the tool's layout of what was read, except that the app never
      looks at the three reserved bytes. */
  lemma LayoutParse(buf: seq<byte>)
    requires Parse(buf).Bundle?
    ensures Layout(Parse(buf).firmware) == buf <==> buf[5..8] == [0, 0, 0]
  {
    U32leOfRead(buf, 8);
    var b := Parse(buf).firmware;
    LayoutFields(b);
    assert buf == buf[..4] + [buf[4]] + buf[5..8] + buf[8..12] + buf[12..76] + buf[76..140] + buf[140..];
  }

  /** The signing tool: builds the header piece by piece. `None` where it stops with an error. */
  datatype File = NoFile | File(bytes: seq<byte>)

  method SignFirmware(compress: Compress, signer: seq<byte> -> seq<byte>, image: seq<byte>) returns (f: File)
    ensures f == if image == [] || |image| >= 0x1_0000_0000 then NoFile
                 else File(Layout(Firmware(|image|, Digest(compress, image), signer(Digest(compress, image)), image)))
  {
    if image == [] || |image| >= 0x1_0000_0000 { return NoFile; }
    var digest := HashChunks(compress, [image]);
    assert Concat([image]) == Concat([image][..0]) + image == image;
    var header: seq<byte> := MAGIC;
    header := header + [FORMAT];
    header := header + [0, 0, 0];
    header := header + U32le(|image|);
    header := header + digest;
    header := header + signer(digest);
    f := File(header + image);
  }

  // ---------- the OTA channel ----------

  const OP_BEGIN: byte := 1
  const OP_CHUNK: byte := 2
  const OP_COMMIT: byte := 3
  const OP_ABORT: byte := 4
  const OP_REBOOT: byte := 5
  const OP_STATUS: byte := 6

  const OK: nat := 0
  const UNAUTHENTICATED: nat := 1
  const BAD_REQUEST: nat := 2
  const REJECTED: nat := 3
  const INTERNAL: nat := 8

  function Wire(r: Outcome): (code: nat)
    ensures code == OK <==> r == Done
  {
    match r
    case Done => OK
    case BadState | BadSize | OutOfOrder | Overrun => BAD_REQUEST
    case FlashFailed => INTERNAL
    case BadSignature | HashMismatch | UnsafeState => REJECTED
  }

  datatype Reply = Silence | Result(code: nat) | Status(code: nat, state: State, received: nat, size: nat)

  /** handle_ota with an updater attached. */
  method Handle(u: Updater, authed: bool, safe: bool, payload: seq<byte>) returns (reply: Reply, ghost r: Outcome)
    requires u.Valid()
    modifies u, u.flash`ops, u.flash.cells, u.hash, u.hash.block
    ensures u.Valid()
    ensures payload == [] ==> reply == Silence
    ensures payload != [] && !authed ==> reply == Result(UNAUTHENTICATED)
    ensures payload == [] || !authed ==> u.state == old(u.state) && u.flash.cells[..] == old(u.flash.cells[..])
    ensures u.state == Committed && old(u.state) != Committed ==> authed && payload[0] == OP_COMMIT
    ensures authed && IsBegin(payload) ==>
              && reply == Result(Wire(r))
              && var size, digest, sig := ReadU32le(payload, 1), payload[5..69], payload[69..133];
                 var refusal := old(u.Refusal(size, digest, sig, safe));
                 && (refusal != Done ==> r == refusal && u.flash.ops == old(u.flash.ops))
                 && (refusal == Done ==> u.flash.ops == old(u.flash.ops) + 1 && r == if u.flash.faults(old(u.flash.ops)).Works? then Done else FlashFailed)
                 && (r == Done ==> u.state == Receiving && u.imageSize == size && u.declared == digest && u.got == [])
                 && (r != Done ==> u.state == old(u.state))
    ensures authed && IsChunk(payload) && old(u.state) == Receiving ==>
              && reply == Result(Wire(r))
              && u.imageSize == old(u.imageSize) && u.declared == old(u.declared)
              && var offset, data := ReadU32le(payload, 1), payload[5..];
                 && u.flash.ops == old(u.flash.ops) + (if offset == |old(u.got)| && offset + |data| <= u.imageSize then 1 else 0)
                 && r == (if offset != |old(u.got)| then OutOfOrder else if offset + |data| > u.imageSize then Overrun
                          else if u.flash.faults(old(u.flash.ops)).Works? then Done else FlashFailed)
                 && u.state == (if r == Done then Receiving else Error)
                 && u.got == (if r == Done then old(u.got) + data else old(u.got))
    ensures authed && payload != [] && payload[0] == OP_COMMIT && old(u.state) == Receiving ==>
              && reply == Result(Wire(r)) && u.got == old(u.got) && u.imageSize == old(u.imageSize)
              && r == (if |u.got| != u.imageSize then BadState else if Digest(u.hash.compress, u.got) != old(u.declared) then HashMismatch
                       else if u.flash.faults(old(u.flash.ops)).Works? then Done else FlashFailed)
              && u.state == (if r == Done then Committed else if r == BadState then Receiving else Error)
  {
    hide Digest, Wire;
    r := BadState;
    if payload == [] { return Silence, r; }
    var op, body := payload[0], payload[1..];
    if !authed { return Result(UNAUTHENTICATED), r; }
    if op == OP_BEGIN {
      if |body| != 4 + 2 * DIGEST_BYTES { return Result(BAD_REQUEST), r; }
      assert body[4..68] == payload[5..69] && body[68..132] == payload[69..133];
      var res := u.Begin(ReadU32le(body, 0), body[4..68], body[68..132], safe);
      return Result(Wire(res)), res;
    } else if op == OP_CHUNK {
      if |body| < 4 { return Result(BAD_REQUEST), r; }
      assert body[4..] == payload[5..];
      var res := u.Chunk(ReadU32le(body, 0), body[4..]);
      return Result(Wire(res)), res;
    } else if op == OP_COMMIT {
      var res := u.Commit();
      return Result(Wire(res)), res;
    } else if op == OP_ABORT {
      u.Abort();
      return Result(OK), r;
    } else if op == OP_REBOOT {
      var res, _ := u.Reboot(safe);
      return Result(Wire(res)), res;
    } else if op == OP_STATUS {
      return Status(OK, u.state, u.bytesReceived, u.imageSize), r;
    }
    reply := Result(BAD_REQUEST);
  }

  predicate IsBegin(payload: seq<byte>) {
    |payload| == 133 && payload[0] == OP_BEGIN
  }

  predicate IsChunk(payload: seq<byte>) {
    |payload| >= 5 && payload[0] == OP_CHUNK
  }

  // ---------- the client ----------

  function ChunkCount(n: nat): nat { (n + CHUNK_BYTES - 1) / CHUNK_BYTES }

  lemma ChunksNeeded(n: nat, k: nat)
    ensures k < ChunkCount(n) <==> k * CHUNK_BYTES < n
  {
  }

  ghost predicate Healthy(faults: nat -> Fault, from: nat, n: nat) {
    forall i :: from <= i < from + n ==> faults(i).Works?
  }

  /** Everything an upload depends on. The flash is used once to begin, once a chunk and
      once to commit. */
  ghost predicate Deserves(u: Updater, safe: bool, b: Firmware)
    reads u, u.flash, u.hash
  {
    && u.state == Idle && 0 < b.imageSize <= MAX_IMAGE && safe && u.verify(b.sha512, b.signature)
    && |b.image| == b.imageSize && Digest(u.hash.compress, b.image) == b.sha512
    && Healthy(u.flash.faults, u.flash.ops, 2 + ChunkCount(|b.image|))
  }

  lemma BeginFrame(b: Firmware)
    requires Framed(b)
    ensures var p := [OP_BEGIN] + U32le(b.imageSize) + b.sha512 + b.signature;
            IsBegin(p) && ReadU32le(p, 1) == b.imageSize && p[5..69] == b.sha512 && p[69..133] == b.signature
  {
    U32leRoundTrip(b.imageSize, [OP_BEGIN], b.sha512 + b.signature);
    assert [OP_BEGIN] + U32le(b.imageSize) + b.sha512 + b.signature == [OP_BEGIN] + U32le(b.imageSize) + (b.sha512 + b.signature);
  }

  lemma ChunkFrame(offset: nat, data: seq<byte>)
    requires offset < 0x1_0000_0000
    ensures var p := [OP_CHUNK] + U32le(offset) + data; IsChunk(p) && ReadU32le(p, 1) == offset && p[5..] == data
  {
    U32leRoundTrip(offset, [OP_CHUNK], data);
  }

  method OtaBegin(u: Updater, safe: bool, b: Firmware) returns (ok: bool)
    requires u.Valid() && Framed(b)
    modifies u, u.flash`ops, u.flash.cells, u.hash, u.hash.block
    ensures u.Valid()
    ensures ok <==> old(u.Refusal(b.imageSize, b.sha512, b.signature, safe)) == Done && u.flash.faults(old(u.flash.ops)).Works?
    ensures ok ==> u.state == Receiving && u.imageSize == b.imageSize && u.declared == b.sha512 && u.got == [] && u.flash.ops == old(u.flash.ops) + 1
    ensures !ok ==> u.state == old(u.state)
  {
    BeginFrame(b);
    hide ReadU32le, U32le, Wire, Digest;
    var reply, _ := Handle(u, true, safe, [OP_BEGIN] + U32le(b.imageSize) + b.sha512 + b.signature);
    ok := reply == Result(OK);
  }

  method OtaChunk(u: Updater, safe: bool, offset: nat, data: seq<byte>) returns (ok: bool)
    requires u.Valid() && u.state == Receiving && offset == |u.got| < 0x1_0000_0000
    modifies u, u.flash`ops, u.flash.cells, u.hash, u.hash.block
    ensures u.Valid() && u.declared == old(u.declared) && u.imageSize == old(u.imageSize)
    ensures ok <==> offset + |data| <= u.imageSize && u.flash.faults(old(u.flash.ops)).Works?
    ensures ok ==> u.state == Receiving && u.got == old(u.got) + data && u.flash.ops == old(u.flash.ops) + 1
    ensures !ok ==> u.state == Error
  {
    ChunkFrame(offset, data);
    hide ReadU32le, U32le, Wire, Digest;
    var reply, _ := Handle(u, true, safe, [OP_CHUNK] + U32le(offset) + data);
    ok := reply == Result(OK);
  }

  method OtaCommit(u: Updater, safe: bool) returns (ok: bool)
    requires u.Valid() && u.state == Receiving
    modifies u, u.flash`ops, u.flash.cells, u.hash, u.hash.block
    ensures u.Valid() && u.imageSize == old(u.imageSize) && u.got == old(u.got)
    ensures ok <==> |u.got| == u.imageSize && Digest(u.hash.compress, u.got) == old(u.declared) && u.flash.faults(old(u.flash.ops)).Works?
    ensures u.state == Committed <==> ok
  {
    hide ReadU32le, Wire, Digest;
    var reply, _ := Handle(u, true, safe, [OP_COMMIT]);
    ok := reply == Result(OK);
  }

  /** Sends the image in order. It stops at the first chunk that overruns the declared size
      or that the flash does not take. */
  method SendChunks(u: Updater, safe: bool, image: seq<byte>) returns (ok: bool)
    requires u.Valid() && u.state == Receiving && u.got == []
    modifies u, u.flash`ops, u.flash.cells, u.hash, u.hash.block
    ensures u.Valid() && u.declared == old(u.declared) && u.imageSize == old(u.imageSize)
    ensures ok <==> |image| <= u.imageSize && Healthy(u.flash.faults, old(u.flash.ops), ChunkCount(|image|))
    ensures ok ==> u.state == Receiving && u.got == image && u.flash.ops == old(u.flash.ops) + ChunkCount(|image|)
    ensures !ok ==> u.state == Error
  {
    hide Digest, Context.Valid, ChunkCount;
    var off := 0;
    ghost var k: nat := 0;
    while off < |image|
      invariant u.Valid() && u.state == Receiving && u.declared == old(u.declared) && u.imageSize == old(u.imageSize)
      invariant off == (if k * CHUNK_BYTES < |image| then k * CHUNK_BYTES else |image|) && u.got == image[..off] && off <= u.imageSize
      invariant k <= ChunkCount(|image|)
      invariant u.flash.ops == old(u.flash.ops) + k && Healthy(u.flash.faults, old(u.flash.ops), k)
      decreases |image| - off
    {
      ChunksNeeded(|image|, k);
      var next := if off + CHUNK_BYTES < |image| then off + CHUNK_BYTES else |image|;
      ok := OtaChunk(u, safe, off, image[off..next]);
      if !ok { return; }
      assert image[..off] + image[off..next] == image[..next];
      off := next;
      k := k + 1;
    }
    ChunksNeeded(|image|, k);
    assert image[..|image|] == image;
    ok := true;
  }

  /** uploadFirmware against the board: it succeeds exactly when the bundle deserves it, and
      then the new image is on flash, whole and committed. */
  method UploadFirmware(u: Updater, safe: bool, b: Firmware) returns (ok: bool)
    requires u.Valid() && Framed(b)
    modifies u, u.flash`ops, u.flash.cells, u.hash, u.hash.block
    ensures u.Valid()
    ensures ok <==> old(Deserves(u, safe, b))
    ensures ok ==> u.state == Committed && u.imageSize == |b.image| && u.flash.cells[..|b.image|] == b.image
    ensures u.state == Committed <==> ok || old(u.state) == Committed
  {
    hide Digest, Context.Valid, ChunkCount;
    var begun := OtaBegin(u, safe, b);
    if !begun {
      return false;
    }
    var sent := SendChunks(u, safe, b.image);
    if !sent {
      return false;
    }
    ok := OtaCommit(u, safe);
  }

  /** From the release build to the board: whatever was signed with the matching key is what
      the board boots into next. */
  method ShipRelease(u: Updater, safe: bool, signer: seq<byte> -> seq<byte>, image: seq<byte>) returns (ok: bool)
    requires u.Valid() && u.state == Idle
    requires forall d :: |signer(d)| == DIGEST_BYTES && u.verify(d, signer(d))
    requires |Digest(u.hash.compress, image)| == DIGEST_BYTES
    modifies u, u.flash`ops, u.flash.cells, u.hash, u.hash.block
    ensures u.Valid()
    ensures ok <==> safe && 0 < |image| <= MAX_IMAGE && old(Healthy(u.flash.faults, u.flash.ops, 2 + ChunkCount(|image|)))
    ensures ok ==> u.state == Committed && u.flash.cells[..|image|] == image
  {
    var f := SignFirmware(u.hash.compress, signer, image);
    if f.NoFile? { return false; }
    ghost var b := Firmware(|image|, Digest(u.hash.compress, image), signer(Digest(u.hash.compress, image)), image);
    ParseLayout(b);
    var parsed := Parse(f.bytes);
    ok := UploadFirmware(u, safe, parsed.firmware);
  }
}
