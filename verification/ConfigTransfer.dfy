/**
  Moving a configuration document over the link in 128-byte chunks: the board's staging
  buffer and read frames (firmware/components/core/mc_session.c) and the client's write loop
  and reassembly (app/src/protocol/MotoClient.ts).
 */
module ConfigTransfer {
  import opened Bytes

  const MAX_JSON: nat := 6144
  const CHUNK: nat := 128

  const OK: nat := 0
  const UNAUTHENTICATED: nat := 1
  const BAD_REQUEST: nat := 2

  const OP_BEGIN: byte := 2
  const OP_CHUNK: byte := 3
  const OP_COMMIT: byte := 4

  datatype Reply = Silence | Result(code: nat)

  // ---------- writing ----------

  /** The session's staging buffer. `apply` is what committing a document answers. */
  class Staging {
    const buf: array<byte>
    const apply: seq<byte> -> nat
    var total: nat
    var got: nat
    var active: bool

    ghost predicate Valid()
      reads this
    {
      buf.Length == MAX_JSON && got <= total <= MAX_JSON && (active ==> total > 0)
    }

    constructor (apply: seq<byte> -> nat)
      ensures Valid() && !active && this.apply == apply && fresh(buf)
    {
      this.apply := apply;
      total, got, active := 0, 0, false;
      buf := new byte[MAX_JSON](_ => 0);
    }

    method Begin(body: seq<byte>) returns (r: Reply)
      requires Valid()
      modifies this`total, this`got, this`active
      ensures Valid()
      ensures |body| < 2 || ReadU16le(body, 0) == 0 || ReadU16le(body, 0) > MAX_JSON ==>
                r == Result(BAD_REQUEST) && total == old(total) && got == old(got) && active == old(active)
      ensures |body| >= 2 && 0 < ReadU16le(body, 0) <= MAX_JSON ==>
                r == Silence && active && total == ReadU16le(body, 0) && got == 0
    {
      if |body| < 2 { return Result(BAD_REQUEST); }
      var size := ReadU16le(body, 0);
      if size == 0 || size > MAX_JSON { return Result(BAD_REQUEST); }
      total, got, active := size, 0, true;
      r := Silence;
    }

    /** A chunk lands at its offset; only the highest end seen is remembered. */
    method Chunk(body: seq<byte>) returns (r: Reply)
      requires Valid()
      modifies this`got, this`active, buf
      ensures Valid()
      ensures r != Silence ==> r == Result(BAD_REQUEST) && !active && got == old(got) && buf[..] == old(buf[..])
      ensures r == Silence <==> old(active) && |body| >= 2 && ReadU16le(body, 0) + |body| - 2 <= total
      ensures r == Silence ==>
                var offset, end := ReadU16le(body, 0), ReadU16le(body, 0) + |body| - 2;
                && active && buf[..] == old(buf[..offset]) + body[2..] + old(buf[end..])
                && got == if end > old(got) then end else old(got)
    {
      if !active || |body| < 2 { active := false; return Result(BAD_REQUEST); }
      var offset := ReadU16le(body, 0);
      var data := body[2..];
      if offset + |data| > total { active := false; return Result(BAD_REQUEST); }
      for i := 0 to |data|
        invariant buf[..] == old(buf[..offset]) + data[..i] + old(buf[offset + i..])
        invariant active == old(active) && got == old(got)
      {
        buf[offset + i] := data[i];
      }
      var end := offset + |data|;
      if end > got { got := end; }
      r := Silence;
    }

    method Commit() returns (r: Reply)
      requires Valid()
      modifies this`active
      ensures Valid() && !active
      ensures r == Result(if old(active) && got == total then apply(buf[..total]) else BAD_REQUEST)
    {
      if !active || got != total { active := false; return Result(BAD_REQUEST); }
      r := Result(apply(buf[..total]));
      active := false;
    }

    /** handle_config's write operations. */
    method Handle(authed: bool, payload: seq<byte>) returns (r: Reply)
      requires Valid() && payload != [] && payload[0] in {OP_BEGIN, OP_CHUNK, OP_COMMIT}
      modifies this`total, this`got, this`active, buf
      ensures Valid()
      ensures !authed ==> r == Result(UNAUTHENTICATED) && total == old(total) && got == old(got) && active == old(active) && buf[..] == old(buf[..])
      ensures authed && payload[0] == OP_BEGIN && |payload| >= 3 && 0 < ReadU16le(payload, 1) <= MAX_JSON ==>
                r == Silence && active && total == ReadU16le(payload, 1) && got == 0
      ensures authed && payload[0] == OP_CHUNK && |payload| >= 3 && old(active) && ReadU16le(payload, 1) + |payload| - 3 <= old(total) ==>
                var offset, end := ReadU16le(payload, 1), ReadU16le(payload, 1) + |payload| - 3;
                && r == Silence && active && total == old(total)
                && buf[..] == old(buf[..offset]) + payload[3..] + old(buf[end..])
                && got == if end > old(got) then end else old(got)
      ensures authed && payload[0] == OP_COMMIT ==>
                !active && buf[..] == old(buf[..]) && r == Result(if old(active) && old(got) == old(total) then apply(buf[..old(total)]) else BAD_REQUEST)
    {
      if !authed { return Result(UNAUTHENTICATED); }
      var body := payload[1..];
      if payload[0] == OP_BEGIN {
        r := Begin(body);
      } else if payload[0] == OP_CHUNK {
        if |body| >= 2 { assert body[2..] == payload[3..]; }
        r := Chunk(body);
      } else {
        r := Commit();
      }
    }
  }

  datatype WriteOutcome = Refused | Answered(code: nat)

  lemma ChunkPayload(op: byte, offset: nat, data: seq<byte>)
    requires offset < 0x1_0000
    ensures var p := [op] + U16le(offset) + data; |p| == 3 + |data| && ReadU16le(p, 1) == offset && p[3..] == data
  {
    U16leRoundTrip(offset, [op], data);
  }

  /** configWrite: whatever was staged before, the board commits exactly these bytes and
      the answer is its verdict on them. */
  method ConfigWrite(s: Staging, bytes: seq<byte>) returns (r: WriteOutcome)
    requires s.Valid()
    modifies s`total, s`got, s`active, s.buf
    ensures s.Valid()
    ensures bytes == [] || |bytes| > MAX_JSON ==> r == Refused && s.buf[..] == old(s.buf[..]) && s.active == old(s.active)
    ensures 0 < |bytes| <= MAX_JSON ==> r == Answered(s.apply(bytes)) && s.buf[..|bytes|] == bytes
  {
    if |bytes| == 0 || |bytes| > MAX_JSON { return Refused; }
    ChunkPayload(OP_BEGIN, |bytes|, []);
    assert [OP_BEGIN] + U16le(|bytes|) == [OP_BEGIN] + U16le(|bytes|) + [];
    var _ := s.Handle(true, [OP_BEGIN] + U16le(|bytes|));
    var off := 0;
    while off < |bytes|
      invariant s.Valid() && s.active && s.total == |bytes| && off <= |bytes| && s.got == off
      invariant s.buf[..off] == bytes[..off]
    {
      var next := if off + CHUNK < |bytes| then off + CHUNK else |bytes|;
      ChunkPayload(OP_CHUNK, off, bytes[off..next]);
      ghost var was := s.buf[..off];
      var _ := s.Handle(true, [OP_CHUNK] + U16le(off) + bytes[off..next]);
      assert s.buf[..next] == was + bytes[off..next];
      assert bytes[..next] == bytes[..off] + bytes[off..next];
      off := next;
    }
    assert bytes[..|bytes|] == bytes;
    var reply := s.Handle(true, [OP_COMMIT]);
    r := Answered(reply.code);
  }

  // ---------- reading ----------

  /** How many frames a document takes; an empty one still takes one. */
  function Frames(n: nat): (k: nat)
    ensures k >= 1 && CHUNK * (k - 1) <= n <= CHUNK * k && (n > 0 ==> CHUNK * (k - 1) < n)
  {
    if n <= CHUNK then 1 else 1 + Frames(n - CHUNK)
  }

  function Piece(doc: seq<byte>, i: nat): (d: seq<byte>)
    requires CHUNK * i <= |doc|
  {
    doc[CHUNK * i..if CHUNK * (i + 1) < |doc| then CHUNK * (i + 1) else |doc|]
  }

  /** Frame `i` of a document: both header fields are truncated to 16 bits. */
  function FrameOf(doc: seq<byte>, i: nat): seq<byte>
    requires CHUNK * i <= |doc|
  {
    U16le(CHUNK * i) + U16le(|doc|) + Piece(doc, i)
  }

  method SendRead(doc: seq<byte>) returns (frames: seq<seq<byte>>)
    ensures |frames| == Frames(|doc|) && forall i :: 0 <= i < |frames| ==> frames[i] == FrameOf(doc, i)
  {
    frames := [];
    var off := 0;
    ghost var k := Frames(|doc|);
    while true
      invariant off == CHUNK * |frames| && |frames| < k && off <= |doc| && (|frames| > 0 ==> off < |doc|)
      invariant forall i :: 0 <= i < |frames| ==> frames[i] == FrameOf(doc, i)
      decreases |doc| - off, k - |frames|
    {
      var n := if |doc| - off > CHUNK then CHUNK else |doc| - off;
      frames := frames + [U16le(off) + U16le(|doc|) + doc[off..off + n]];
      off := off + n;
      if off >= |doc| { break; }
    }
  }

  datatype Part = Part(off: nat, data: seq<byte>)

  /** Setting a key of a JavaScript Map: an existing key keeps its place. */
  function Put(cs: seq<Part>, c: Part): seq<Part> {
    if cs == [] then [c] else if cs[0].off == c.off then [c] + cs[1..] else [cs[0]] + Put(cs[1..], c)
  }

  function Got(cs: seq<Part>): nat {
    if cs == [] then 0 else |cs[0].data| + Got(cs[1..])
  }

  predicate Fits(cs: seq<Part>, total: nat) {
    forall k :: 0 <= k < |cs| ==> cs[k].off + |cs[k].data| <= total
  }

  function Paste(buf: seq<byte>, cs: seq<Part>): (r: seq<byte>)
    requires Fits(cs, |buf|)
    ensures |r| == |buf|
    decreases |cs|
  {
    if cs == [] then buf
    else Paste(buf[..cs[0].off] + cs[0].data + buf[cs[0].off + |cs[0].data|..], cs[1..])
  }

  datatype Reading = Waiting | Failed | Resolved(doc: seq<byte>)

  /** The pending read: the chunk map, and how the request ended, if it has. A chunk that
      does not fit the announced total makes the copy throw. */
  class Reader {
    var parts: seq<Part>
    var outcome: Reading

    constructor ()
      ensures parts == [] && outcome == Waiting
    {
      parts, outcome := [], Waiting;
    }

    method OnChunk(body: seq<byte>)
      requires |body| >= 4
      modifies this
      ensures old(outcome) != Waiting || ReadU16le(body, 2) == 0 ==> parts == old(parts)
      ensures old(outcome) != Waiting ==> outcome == old(outcome)
      ensures old(outcome) == Waiting && ReadU16le(body, 2) == 0 ==> outcome == Failed
      ensures old(outcome) == Waiting && ReadU16le(body, 2) > 0 ==>
                var total := ReadU16le(body, 2);
                && parts == Put(old(parts), Part(ReadU16le(body, 0), body[4..]))
                && outcome == (if Got(parts) < total then Waiting
                               else if !Fits(parts, total) then Failed else Resolved(Paste(Zeros(total), parts)))
    {
      if outcome != Waiting { return; }
      var total := ReadU16le(body, 2);
      if total == 0 { outcome := Failed; return; }
      parts := Put(parts, Part(ReadU16le(body, 0), body[4..]));
      if Got(parts) >= total {
        outcome := if !Fits(parts, total) then Failed else Resolved(Paste(Zeros(total), parts));
      }
    }
  }

  // ---------- what the parts amount to ----------

  predicate Has(cs: seq<Part>, off: nat) {
    cs != [] && (cs[0].off == off || Has(cs[1..], off))
  }

  predicate HasChunk(cs: seq<Part>, i: nat) {
    Has(cs, CHUNK * i)
  }

  /** A whole chunk of the document. */
  predicate IsPiece(doc: seq<byte>, c: Part) {
    c.off % CHUNK == 0 && c.off < |doc| && c.data == Piece(doc, c.off / CHUNK)
  }

  /** Chunks of the document, at most one for each place. */
  predicate Pieces(doc: seq<byte>, cs: seq<Part>) {
    cs != [] ==> IsPiece(doc, cs[0]) && !Has(cs[1..], cs[0].off) && Pieces(doc, cs[1..])
  }

  lemma {:induction false} HasPut(cs: seq<Part>, c: Part, off: nat)
    ensures Has(Put(cs, c), off) <==> Has(cs, off) || c.off == off
    decreases |cs|
  {
    if cs != [] && cs[0].off != c.off { HasPut(cs[1..], c, off); }
  }

  lemma {:induction false} PutKeeps(doc: seq<byte>, cs: seq<Part>, c: Part)
    requires Pieces(doc, cs) && IsPiece(doc, c)
    ensures Pieces(doc, Put(cs, c))
    decreases |cs|
  {
    if cs != [] && cs[0].off != c.off {
      PutKeeps(doc, cs[1..], c);
      HasPut(cs[1..], c, cs[0].off);
    }
  }

  lemma {:induction false} PiecesFit(doc: seq<byte>, cs: seq<Part>)
    requires Pieces(doc, cs)
    ensures Fits(cs, |doc|)
    decreases |cs|
  {
    if cs != [] {
      PiecesFit(doc, cs[1..]);
      assert cs == [cs[0]] + cs[1..];
    }
  }

  /** The bytes of the first `n` chunks that have arrived. */
  function Arrived(doc: seq<byte>, cs: seq<Part>, n: nat): nat
    requires n > 0 ==> CHUNK * (n - 1) <= |doc|
  {
    if n == 0 then 0
    else Arrived(doc, cs, n - 1) + (if HasChunk(cs, n - 1) then |Piece(doc, n - 1)| else 0)
  }

  lemma {:induction false} ArrivedMore(doc: seq<byte>, cs: seq<Part>, n: nat)
    requires Pieces(doc, cs) && cs != [] && (n > 0 ==> CHUNK * (n - 1) <= |doc|)
    ensures Arrived(doc, cs, n) == Arrived(doc, cs[1..], n) + if cs[0].off < CHUNK * n then |cs[0].data| else 0
    decreases n
  {
    if n > 0 {
      ArrivedMore(doc, cs, n - 1);
    }
  }

  lemma {:induction false} NothingArrived(doc: seq<byte>, n: nat)
    requires n > 0 ==> CHUNK * (n - 1) <= |doc|
    ensures Arrived(doc, [], n) == 0
    decreases n
  {
    if n > 0 { NothingArrived(doc, n - 1); }
  }

  /** The client's running byte count is what has arrived of the document. */
  lemma {:induction false} GotIsArrived(doc: seq<byte>, cs: seq<Part>)
    requires Pieces(doc, cs)
    ensures Got(cs) == Arrived(doc, cs, Frames(|doc|))
    decreases |cs|
  {
    if cs == [] {
      NothingArrived(doc, Frames(|doc|));
    } else {
      GotIsArrived(doc, cs[1..]);
      ArrivedMore(doc, cs, Frames(|doc|));
    }
  }

  function Covered(doc: seq<byte>, n: nat): nat {
    if CHUNK * n < |doc| then CHUNK * n else |doc|
  }

  /** All bytes have arrived exactly when every chunk has. */
  lemma {:induction false} ArrivedAll(doc: seq<byte>, cs: seq<Part>, n: nat)
    requires n > 0 ==> CHUNK * (n - 1) < |doc|
    ensures Arrived(doc, cs, n) <= Covered(doc, n)
    ensures Arrived(doc, cs, n) == Covered(doc, n) <==> forall i: nat :: i < n ==> HasChunk(cs, i)
    decreases n
  {
    if n > 0 {
      ArrivedAll(doc, cs, n - 1);
      assert |Piece(doc, n - 1)| > 0 && Covered(doc, n - 1) + |Piece(doc, n - 1)| == Covered(doc, n);
    }
  }

  /** Pasting pieces puts the document's byte wherever a piece covers, in any order. */
  lemma {:induction false} PasteGives(doc: seq<byte>, buf: seq<byte>, cs: seq<Part>, p: nat)
    requires |buf| == |doc| && p < |doc| && Pieces(doc, cs) && Fits(cs, |buf|)
    requires buf[p] == doc[p] || Has(cs, p - p % CHUNK)
    ensures Paste(buf, cs)[p] == doc[p]
    decreases |cs|
  {
    if cs != [] {
      var c := cs[0];
      var next := buf[..c.off] + c.data + buf[c.off + |c.data|..];
      PasteGives(doc, next, cs[1..], p);
    }
  }

  lemma FrameHolding(n: nat, p: nat)
    requires p < n
    ensures p / CHUNK < Frames(n) && CHUNK * (p / CHUNK) == p - p % CHUNK
  {
  }

  lemma PasteAll(doc: seq<byte>, cs: seq<Part>)
    requires doc != [] && Pieces(doc, cs) && Fits(cs, |doc|) && forall i: nat :: i < Frames(|doc|) ==> HasChunk(cs, i)
    ensures Paste(Zeros(|doc|), cs) == doc
  {
    hide Paste, Frames, HasChunk, Fits, Pieces;
    forall p: nat | p < |doc| ensures Paste(Zeros(|doc|), cs)[p] == doc[p] {
      FrameHolding(|doc|, p);
      PasteGivesChunk(doc, cs, p);
    }
  }

  lemma PasteGivesChunk(doc: seq<byte>, cs: seq<Part>, p: nat)
    requires p < |doc| && Pieces(doc, cs) && Fits(cs, |doc|) && HasChunk(cs, p / CHUNK) && CHUNK * (p / CHUNK) == p - p % CHUNK
    ensures Paste(Zeros(|doc|), cs)[p] == doc[p]
  {
    hide Paste, Fits, Pieces;
    PasteGives(doc, Zeros(|doc|), cs, p);
  }

  /** Once the count reaches the total, the paste is the document; before, a chunk is missing. */
  lemma CompleteExactly(doc: seq<byte>, cs: seq<Part>)
    requires doc != [] && Pieces(doc, cs)
    ensures Got(cs) <= |doc|
    ensures Got(cs) == |doc| <==> forall i: nat :: i < Frames(|doc|) ==> HasChunk(cs, i)
    ensures Fits(cs, |doc|) && (Got(cs) == |doc| ==> Paste(Zeros(|doc|), cs) == doc)
  {
    var n := Frames(|doc|);
    GotIsArrived(doc, cs);
    ArrivedAll(doc, cs, n);
    PiecesFit(doc, cs);
    if Got(cs) == |doc| { PasteAll(doc, cs); }
  }

  lemma FrameFields(doc: seq<byte>, i: nat)
    requires CHUNK * i < |doc| < 0x1_0000
    ensures var f := FrameOf(doc, i);
            |f| >= 4 && ReadU16le(f, 0) == CHUNK * i && ReadU16le(f, 2) == |doc| && f[4..] == Piece(doc, i)
  {
    var piece := Piece(doc, i);
    U16leRoundTrip(CHUNK * i, [], U16le(|doc|) + piece);
    U16leRoundTrip(|doc|, U16le(CHUNK * i), piece);
    assert FrameOf(doc, i) == [] + U16le(CHUNK * i) + (U16le(|doc|) + piece);
  }

  /** The places delivered so far. */
  predicate Delivered(order: seq<nat>, cs: seq<Part>, n: nat) {
    forall i: nat :: i < n ==> (HasChunk(cs, i) <==> i in order)
  }

  /** Feeds the board's read frames to the client in any order, any number of times each.
      The client gets the document exactly when every frame has come, and nothing else ever
      comes out, provided the document's length fits the 16-bit header. */
  method Receive(doc: seq<byte>, order: seq<nat>) returns (r: Reading)
    requires forall k :: 0 <= k < |order| ==> order[k] < Frames(|doc|)
    ensures 0 < |doc| < 0x1_0000 ==> r == if forall i: nat :: i < Frames(|doc|) ==> i in order then Resolved(doc) else Waiting
    ensures doc == [] ==> r == if order == [] then Waiting else Failed
    ensures |doc| >= 0x1_0000 ==> r != Resolved(doc)
  {
    var frames := SendRead(doc);
    var client := new Reader();
    ghost var n := Frames(|doc|);
    for k := 0 to |order|
      invariant client.outcome.Resolved? ==> |client.outcome.doc| < 0x1_0000
      invariant doc == [] ==> client.outcome == if k == 0 then Waiting else Failed
      invariant 0 < |doc| < 0x1_0000 && client.outcome == Waiting ==>
                  && Pieces(doc, client.parts) && Delivered(order[..k], client.parts, n)
                  && Got(client.parts) < |doc|
      invariant 0 < |doc| < 0x1_0000 && client.outcome != Waiting ==>
                  client.outcome == Resolved(doc) && forall i: nat :: i < n ==> i in order[..k]
    {
      hide FrameOf, Piece, Put, Got, Fits, Paste, Pieces, ReadU16le;
      assert order[..k + 1] == order[..k] + [order[k]];
      EmptyFrame(doc);
      if 0 < |doc| < 0x1_0000 { Arrives(doc, order[..k], order[k], client.parts); }
      client.OnChunk(frames[order[k]]);
    }
    assert order[..|order|] == order;
    if 0 < |doc| < 0x1_0000 && client.outcome == Waiting { CompleteExactly(doc, client.parts); }
    r := client.outcome;
  }

  lemma EmptyFrame(doc: seq<byte>)
    ensures doc == [] ==> |FrameOf(doc, 0)| >= 4 && ReadU16le(FrameOf(doc, 0), 2) == 0
    ensures forall i :: 0 <= i < Frames(|doc|) ==> |FrameOf(doc, i)| >= 4
  {
  }

  /** One more frame delivered. */
  lemma Arrives(doc: seq<byte>, order: seq<nat>, i: nat, cs: seq<Part>)
    requires 0 < |doc| < 0x1_0000 && i < Frames(|doc|)
    ensures var f := FrameOf(doc, i);
            && |f| >= 4 && ReadU16le(f, 2) == |doc|
            && (Pieces(doc, cs) && Delivered(order, cs, Frames(|doc|)) ==>
                  var cs' := Put(cs, Part(ReadU16le(f, 0), f[4..]));
                  && Pieces(doc, cs') && Delivered(order + [i], cs', Frames(|doc|)) && Got(cs') <= |doc| && Fits(cs', |doc|)
                  && (Got(cs') == |doc| <==> forall j: nat :: j < Frames(|doc|) ==> j in order + [i])
                  && (Got(cs') == |doc| ==> Paste(Zeros(|doc|), cs') == doc))
  {
    hide FrameOf, Piece, ReadU16le;
    FrameFields(doc, i);
    if Pieces(doc, cs) && Delivered(order, cs, Frames(|doc|)) {
      PutCompletes(doc, order, i, cs);
    }
  }

  lemma PutCompletes(doc: seq<byte>, order: seq<nat>, i: nat, cs: seq<Part>)
    requires doc != [] && i < Frames(|doc|) && Pieces(doc, cs) && Delivered(order, cs, Frames(|doc|))
    ensures var cs' := Put(cs, Part(CHUNK * i, Piece(doc, i)));
            && Pieces(doc, cs') && Delivered(order + [i], cs', Frames(|doc|)) && Got(cs') <= |doc| && Fits(cs', |doc|)
            && (Got(cs') == |doc| <==> forall j: nat :: j < Frames(|doc|) ==> j in order + [i])
            && (Got(cs') == |doc| ==> Paste(Zeros(|doc|), cs') == doc)
  {
    hide Piece, Pieces, Put, Got, Fits, Paste, Frames;
    var c := Part(CHUNK * i, Piece(doc, i));
    assert IsPiece(doc, c);
    PutKeeps(doc, cs, c);
    var cs' := Put(cs, c);
    forall j: nat | j < Frames(|doc|) ensures HasChunk(cs', j) <==> j in order + [i] {
      HasPut(cs, c, CHUNK * j);
      assert HasChunk(cs, j) <==> j in order;
    }
    CompleteExactly(doc, cs');
  }
}
