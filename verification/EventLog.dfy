/**
  The event log (firmware/components/core/mc_event_log.c): a ring of slots in flash whose
  writes may silently fail, the EVENT_LOG_GET reply loop (mc_session.c) and the client that
  reassembles it (app/src/protocol/MotoClient.ts).
 */
module EventLog {
  import opened Bytes

  const SLOTS: nat := 1024
  const PER_FRAME: nat := 10
  const RECORD_BYTES: nat := 12
  const TWO32: nat := 0x1_0000_0000

  datatype Entry = Entry(uptime: nat, kind: byte, arg0: byte, arg1: byte, stored: bool)
  datatype Record = Record(seqNo: nat, uptime: nat, kind: byte, arg0: byte, arg1: byte)
  datatype Slot = Never | Holds(rec: Record)

  // ---------- what the log should give ----------

  /** Record number `n` of a history of appends, counting from 1. */
  function RecordOf(h: seq<Entry>, n: nat): Record
    requires 1 <= n <= |h|
  {
    var e := h[n - 1];
    Record(n, e.uptime, e.kind, e.arg0, e.arg1)
  }

  /** The records numbered above `from` up to `upto` whose write succeeded, oldest first. */
  function Written(h: seq<Entry>, from: nat, upto: nat): (r: seq<Record>)
    requires upto <= |h|
    ensures from <= upto ==> |r| <= upto - from
  {
    if from >= upto then []
    else Written(h, from, upto - 1) + (if h[upto - 1].stored then [RecordOf(h, upto)] else [])
  }

  /** Where the retained part of the request starts: the ring remembers the last 1024 appends. */
  function Start(last: nat, since: nat): nat {
    var oldest := if last > SLOTS then last - SLOTS else 0;
    if since > oldest then since else oldest
  }

  /** Everything a reader asking for records above `since` should get. */
  function Retained(h: seq<Entry>, since: nat): seq<Record> {
    Written(h, Start(|h|, since), |h|)
  }

  lemma WrittenOne(h: seq<Entry>, from: nat, n: nat)
    requires from < n <= |h|
    ensures Written(h, from, n) == if h[n - 1].stored then Written(h, from, n - 1) + [RecordOf(h, n)] else Written(h, from, n - 1)
  {
  }

  lemma {:induction false} WrittenSplits(h: seq<Entry>, from: nat, mid: nat, upto: nat)
    requires from <= mid <= upto <= |h|
    ensures Written(h, from, upto) == Written(h, from, mid) + Written(h, mid, upto)
    decreases upto
  {
    if mid < upto { WrittenSplits(h, from, mid, upto - 1); }
  }

  /** Every record given is that of a successful write, and they come in order. */
  lemma {:induction false} WrittenGenuine(h: seq<Entry>, from: nat, upto: nat)
    requires upto <= |h|
    ensures forall k :: 0 <= k < |Written(h, from, upto)| ==>
              var r := Written(h, from, upto)[k]; from < r.seqNo <= upto && h[r.seqNo - 1].stored && r == RecordOf(h, r.seqNo)
    ensures forall j, k :: 0 <= j < k < |Written(h, from, upto)| ==> Written(h, from, upto)[j].seqNo < Written(h, from, upto)[k].seqNo
    decreases upto
  {
    hide RecordOf;
    if from < upto {
      WrittenGenuine(h, from, upto - 1);
      if h[upto - 1].stored { assert RecordOf(h, upto).seqNo == upto by { NumberOf(h, upto); } }
    }
  }

  lemma NumberOf(h: seq<Entry>, n: nat)
    requires 1 <= n <= |h|
    ensures RecordOf(h, n).seqNo == n
  {
  }

  /** And every successful write in the range is given. */
  lemma {:induction false} WrittenExactly(h: seq<Entry>, from: nat, upto: nat, n: nat)
    requires from < n <= upto <= |h|
    ensures RecordOf(h, n) in Written(h, from, upto) <==> h[n - 1].stored
    decreases upto
  {
    WrittenGenuine(h, from, upto - 1);
    if n < upto {
      WrittenExactly(h, from, upto - 1, n);
    }
  }

  /** Nothing is missing exactly when no write in the range failed. */
  lemma {:induction false} WrittenFull(h: seq<Entry>, from: nat, upto: nat)
    requires from <= upto <= |h|
    ensures |Written(h, from, upto)| == upto - from <==> forall n :: from <= n < upto ==> h[n].stored
    decreases upto
  {
    if from < upto {
      WrittenFull(h, from, upto - 1);
    }
  }

  // ---------- the ring ----------

  function SlotOf(n: nat): (k: nat)
    requires n >= 1
    ensures k < SLOTS
  {
    (n - 1) % SLOTS
  }

  lemma SlotsDiffer(m: nat, n: nat)
    requires 1 <= m < n < m + SLOTS
    ensures SlotOf(m) != SlotOf(n)
  {
  }

  class Log {
    const slots: array<Slot>
    var lastSeq: nat
    ghost var history: seq<Entry>

    ghost predicate Valid()
      reads this, slots
    {
      && slots.Length == SLOTS && lastSeq == |history|
      && (forall k :: 0 <= k < SLOTS && slots[k].Holds? ==> Genuine(slots[k].rec))
      && (forall n :: 1 <= n && lastSeq < n + SLOTS && n <= lastSeq && history[n - 1].stored ==> slots[SlotOf(n)] == Holds(RecordOf(history, n)))
    }

    /** A slot only ever holds the record of some successful append. */
    ghost predicate Genuine(r: Record)
      requires lastSeq == |history|
      reads this
    {
      1 <= r.seqNo <= lastSeq && history[r.seqNo - 1].stored && r == RecordOf(history, r.seqNo)
    }

    constructor ()
      ensures Valid() && history == [] && fresh(slots)
    {
      slots := new Slot[SLOTS](_ => Never);
      lastSeq, history := 0, [];
    }

    /** `works` says whether this slot write succeeds. */
    method Append(uptime: nat, kind: byte, arg0: byte, arg1: byte, works: bool)
      requires Valid()
      modifies this`lastSeq, this`history, slots
      ensures Valid() && history == old(history) + [Entry(uptime, kind, arg0, arg1, works)]
    {
      var next := lastSeq + 1;
      ghost var was := history;
      history := history + [Entry(uptime, kind, arg0, arg1, works)];
      if works {
        slots[SlotOf(next)] := Holds(Record(next, uptime, kind, arg0, arg1));
      }
      lastSeq := next;
      forall n | 1 <= n && lastSeq < n + SLOTS && n < lastSeq && history[n - 1].stored
        ensures slots[SlotOf(n)] == Holds(RecordOf(history, n))
      {
        SlotsDiffer(n, next);
      }
    }

    method CountSince(since: nat) returns (n: nat)
      requires Valid()
      ensures n == Window(lastSeq, since) >= |Retained(history, since)|
      ensures n == |Retained(history, since)| <==> forall k :: Start(lastSeq, since) <= k < lastSeq ==> history[k].stored
    {
      RetainedBound(history, since);
      NothingFailed(history, since);
      if lastSeq == 0 { return 0; }
      var start := Start(lastSeq, since);
      n := if lastSeq > start then lastSeq - start else 0;
    }

    /** Slot `n` counts only if it is readable and holds record `n` itself. */
    method ReadSlot(n: nat) returns (found: seq<Record>)
      requires Valid() && 1 <= n <= lastSeq < n + SLOTS
      ensures found == if history[n - 1].stored then [RecordOf(history, n)] else []
    {
      var slot := slots[SlotOf(n)];
      found := if slot.Holds? && slot.rec.seqNo == n then [slot.rec] else [];
    }

    /** The oldest `max` of the retained records above `since`, or all of them. */
    method Read(since: nat, max: nat) returns (out: seq<Record>)
      requires Valid()
      ensures |out| <= max && out <= Retained(history, since)
      ensures |out| < max ==> out == Retained(history, since)
      ensures out != [] ==> out[|out| - 1].seqNo <= lastSeq && out == Written(history, Start(lastSeq, since), out[|out| - 1].seqNo)
    {
      out := [];
      if lastSeq == 0 { return; }
      var start := Start(lastSeq, since);
      if start < lastSeq {
        out := Scan(start, max);
      }
    }

    lemma Numbered()
      requires Valid()
      ensures lastSeq == |history|
    {
    }

    method Scan(start: nat, max: nat) returns (out: seq<Record>)
      requires Valid() && start < lastSeq <= start + SLOTS
      ensures |out| <= max && out <= Written(history, start, lastSeq)
      ensures |out| < max ==> out == Written(history, start, lastSeq)
      ensures out != [] ==> out[|out| - 1].seqNo <= lastSeq && out == Written(history, start, out[|out| - 1].seqNo)
    {
      hide Valid;
      Numbered();
      out := [];
      ghost var h := history;
      ghost var mark := start;
      var n := start + 1;
      assert Written(h, start, start) == [];
      while n <= lastSeq && |out| < max
        invariant start < n <= lastSeq + 1 && |out| <= max && start <= mark < n
        invariant out == Written(h, start, n - 1) == Written(h, start, mark) && (out != [] ==> out[|out| - 1].seqNo == mark)
      {
        hide RecordOf, SlotOf, Written;
        var found := ReadSlot(n);
        WrittenOne(h, start, n);
        if found != [] {
          NumberOf(h, n);
          mark := n;
          out := out + found;
        }
        n := n + 1;
      }
      WrittenSplits(h, start, n - 1, lastSeq);
    }
  }

  // ---------- the reply frames ----------

  function Encode(r: Record): (b: seq<byte>)
    ensures |b| == RECORD_BYTES
  {
    U32le(r.seqNo) + U32le(r.uptime) + [r.kind, r.arg0, r.arg1, 0]
  }

  function EncodeAll(rs: seq<Record>): (b: seq<byte>)
    ensures |b| == RECORD_BYTES * |rs|
  {
    if rs == [] then [] else EncodeAll(rs[..|rs| - 1]) + Encode(rs[|rs| - 1])
  }

  function FrameOf(index: nat, total: nat, batch: seq<Record>): seq<byte>
    requires |batch| <= PER_FRAME
  {
    U16le(index) + U16le(total) + [|batch|] + EncodeAll(batch)
  }

  function Joined(batches: seq<seq<Record>>): seq<Record> {
    if batches == [] then [] else Joined(batches[..|batches| - 1]) + batches[|batches| - 1]
  }

  lemma JoinedOne(batches: seq<seq<Record>>, b: seq<Record>)
    ensures Joined(batches + [b]) == Joined(batches) + b
  {
    assert (batches + [b])[..|batches|] == batches;
  }

  /** The frames carry these batches, numbered by the records already sent. */
  ghost predicate Carries(frames: seq<seq<byte>>, batches: seq<seq<Record>>, total: nat) {
    && |frames| == |batches|
    && (forall i :: 0 <= i < |frames| ==> |batches[i]| <= PER_FRAME && frames[i] == FrameOf(|Joined(batches[..i])|, total, batches[i]))
    && forall i :: 0 <= i < |frames| - 1 ==> |batches[i]| == PER_FRAME
  }

  ghost predicate AllFull(batches: seq<seq<Record>>) {
    forall i :: 0 <= i < |batches| ==> |batches[i]| == PER_FRAME
  }

  lemma CarriesOne(frames: seq<seq<byte>>, batches: seq<seq<Record>>, total: nat, batch: seq<Record>)
    requires Carries(frames, batches, total) && AllFull(batches) && |batch| <= PER_FRAME
    ensures Carries(frames + [FrameOf(|Joined(batches)|, total, batch)], batches + [batch], total)
    ensures |batch| == PER_FRAME ==> AllFull(batches + [batch])
    ensures Joined(batches + [batch]) == Joined(batches) + batch
  {
    hide FrameOf, Joined;
    var fs, bs := frames + [FrameOf(|Joined(batches)|, total, batch)], batches + [batch];
    forall i | 0 <= i < |fs| ensures |bs[i]| <= PER_FRAME && fs[i] == FrameOf(|Joined(bs[..i])|, total, bs[i]) {
      assert bs[..i] == batches[..i];
      assert batches[..|batches|] == batches;
    }
    JoinedOne(batches, batch);
  }

  /** The largest frame fits the 255 bytes a frame may carry, so none is dropped. */
  lemma FramesAreSmall(index: nat, total: nat, batch: seq<Record>)
    requires |batch| <= PER_FRAME
    ensures |FrameOf(index, total, batch)| <= 125
  {
  }

  function Window(last: nat, since: nat): nat {
    if last > Start(last, since) then last - Start(last, since) else 0
  }

  /** What is left to send once the last record sent is number `seqNo`. */
  lemma Rest(h: seq<Entry>, since: nat, sent: seq<Record>)
    requires sent != [] && sent <= Retained(h, since)
    requires sent[|sent| - 1].seqNo <= |h| && sent == Written(h, Start(|h|, since), sent[|sent| - 1].seqNo)
    ensures Retained(h, since) == sent + Retained(h, sent[|sent| - 1].seqNo)
  {
    var at := sent[|sent| - 1].seqNo;
    WrittenGenuine(h, Start(|h|, since), |h|);
    assert sent[|sent| - 1] == Retained(h, since)[|sent| - 1];
    WrittenSplits(h, Start(|h|, since), at, |h|);
    assert Start(|h|, at) == at;
  }

  lemma RetainedBound(h: seq<Entry>, since: nat)
    ensures |Retained(h, since)| <= Window(|h|, since)
  {
  }

  /** One batch later: what was sent and what is left still make up the request. */
  lemma BatchSent(h: seq<Entry>, since: nat, cursor: nat, sent: seq<Record>, got: seq<Record>)
    requires Retained(h, since) == sent + Retained(h, cursor) && got <= Retained(h, cursor)
    requires |got| < PER_FRAME ==> got == Retained(h, cursor)
    requires got != [] ==> got[|got| - 1].seqNo <= |h| && got == Written(h, Start(|h|, cursor), got[|got| - 1].seqNo)
    ensures Retained(h, since) == sent + got + Retained(h, if got == [] then cursor else got[|got| - 1].seqNo)
    ensures |sent + got| <= Window(|h|, since)
    ensures |got| < PER_FRAME || |sent + got| >= Window(|h|, since) ==> Retained(h, since) == sent + got
  {
    hide Written, Start, Window, Retained;
    RetainedBound(h, since);
    var next := if got == [] then cursor else got[|got| - 1].seqNo;
    if got != [] { Rest(h, cursor, got); }
    assert Retained(h, cursor) == got + Retained(h, next);
    Pieces(Retained(h, since), sent, Retained(h, cursor), got, Retained(h, next));
  }

  lemma Pieces<T>(all: seq<T>, sent: seq<T>, tail: seq<T>, got: seq<T>, rest: seq<T>)
    requires all == sent + tail && tail == got + rest
    ensures all == sent + got + rest && |all| == |sent + got| + |rest|
    ensures |rest| == 0 ==> all == sent + got
    ensures got == tail && got != [] ==> |rest| == 0
  {
  }

  /** EVENT_LOG_GET: batches of ten until one is short or everything counted was sent. */
  method SendLog(log: Log, since: nat) returns (frames: seq<seq<byte>>, ghost batches: seq<seq<Record>>)
    requires log.Valid()
    ensures frames != [] && Carries(frames, batches, Window(log.lastSeq, since))
    ensures Joined(batches) == Retained(log.history, since)
  {
    var total := log.CountSince(since);
    frames, batches := SendBatches(log, since, total);
  }

  method SendBatches(log: Log, since: nat, total: nat) returns (frames: seq<seq<byte>>, ghost batches: seq<seq<Record>>)
    requires log.Valid() && total == Window(log.lastSeq, since)
    ensures frames != [] && Carries(frames, batches, total) && Joined(batches) == Retained(log.history, since)
  {
    frames, batches := [], [];
    ghost var h := log.history;
    var cursor, sent := since, 0;
    assert Carries(frames, batches, total) && AllFull(batches) && Joined(batches) == [];
    while true
      invariant Carries(frames, batches, total) && AllFull(batches)
      invariant Retained(h, since) == Joined(batches) + Retained(h, cursor) && sent == |Joined(batches)|
      invariant frames != [] ==> sent < total
      decreases total - sent
    {
      hide Retained, Written, Start, EncodeAll, U16le, Carries, AllFull, Joined, Window;
      var got := log.Read(cursor, PER_FRAME);
      CarriesOne(frames, batches, total, got);
      BatchSent(h, since, cursor, Joined(batches), got);
      frames := frames + [U16le(sent) + U16le(total) + [|got|] + EncodeAll(got)];
      batches := batches + [got];
      if |got| > 0 {
        cursor := got[|got| - 1].seqNo;
      }
      sent := sent + |got|;
      if |got| < PER_FRAME { break; }
      if sent >= total { break; }
    }
  }

  // ---------- the client ----------

  /** Every number in the record fits the 32 bits the wire gives it. */
  ghost predicate WireSized(rs: seq<Record>) {
    forall k :: 0 <= k < |rs| ==> rs[k].seqNo < TWO32 && rs[k].uptime < TWO32
  }

  function DecodeAt(b: seq<byte>, pos: nat): Record
    requires pos + RECORD_BYTES <= |b|
  {
    Record(ReadU32le(b, pos), ReadU32le(b, pos + 4), b[pos + 8], b[pos + 9], b[pos + 10])
  }

  function DecodeAll(b: seq<byte>, pos: nat, count: nat): (rs: seq<Record>)
    requires pos + RECORD_BYTES * count <= |b|
    ensures |rs| == count
  {
    if count == 0 then [] else DecodeAll(b, pos, count - 1) + [DecodeAt(b, pos + RECORD_BYTES * (count - 1))]
  }

  lemma DecodeOne(before: seq<byte>, r: Record, after: seq<byte>)
    requires r.seqNo < TWO32 && r.uptime < TWO32
    ensures DecodeAt(before + Encode(r) + after, |before|) == r
  {
    hide U32le, ReadU32le;
    var b := before + Encode(r) + after;
    var tail := [r.kind, r.arg0, r.arg1, 0];
    U32leRoundTrip(r.seqNo, before, U32le(r.uptime) + tail + after);
    U32leRoundTrip(r.uptime, before + U32le(r.seqNo), tail + after);
    assert b == before + U32le(r.seqNo) + (U32le(r.uptime) + tail + after);
    assert b == before + U32le(r.seqNo) + U32le(r.uptime) + (tail + after);
  }

  lemma {:induction false} DecodeEncode(before: seq<byte>, rs: seq<Record>, after: seq<byte>)
    requires WireSized(rs)
    ensures DecodeAll(before + EncodeAll(rs) + after, |before|, |rs|) == rs
    decreases |rs|
  {
    hide Encode, DecodeAt;
    if rs != [] {
      var init, last := rs[..|rs| - 1], rs[|rs| - 1];
      var head, code := EncodeAll(init), Encode(last);
      DecodeEncode(before, init, code + after);
      DecodeOne(before + head, last, after);
      Regroup(before, head, code, after);
      assert |before + head| == |before| + RECORD_BYTES * |init|;
    }
  }

  lemma Regroup(a: seq<byte>, b: seq<byte>, c: seq<byte>, d: seq<byte>)
    ensures a + (b + c) + d == a + b + (c + d) && a + (b + c) + d == a + b + c + d
  {
  }

  lemma FrameDecodes(index: nat, total: nat, batch: seq<Record>)
    requires |batch| <= PER_FRAME && total < 0x1_0000 && WireSized(batch)
    ensures var f := FrameOf(index, total, batch);
            |f| == 5 + RECORD_BYTES * |batch| && f[4] == |batch| && ReadU16le(f, 2) == total && DecodeAll(f, 5, |batch|) == batch
  {
    hide U16le, ReadU16le, DecodeAll, EncodeAll;
    var head := U16le(index) + U16le(total) + [|batch|];
    var body := EncodeAll(batch);
    var f := FrameOf(index, total, batch);
    DecodeEncode(head, batch, []);
    assert f == head + body + [];
    assert f == head + body && head[4] == |batch|;
    U16leRoundTrip(total, U16le(index), [|batch|] + body);
    assert f == U16le(index) + U16le(total) + ([|batch|] + body);
  }

  /** The pending request: records collected so far, until as many as announced came. */
  class Collector {
    var records: seq<Record>
    var resolved: bool

    constructor ()
      ensures records == [] && !resolved
    {
      records, resolved := [], false;
    }

    method OnFrame(body: seq<byte>)
      requires |body| >= 5 && |body| >= 5 + RECORD_BYTES * body[4] as int
      modifies this
      ensures old(resolved) ==> resolved && records == old(records)
      ensures !old(resolved) ==>
                records == old(records) + DecodeAll(body, 5, body[4] as int) && resolved == (|records| >= ReadU16le(body, 2))
    {
      if resolved { return; }
      var total, count: nat := ReadU16le(body, 2), body[4] as int;
      var pos := 5;
      for i := 0 to count
        invariant pos == 5 + RECORD_BYTES * i && !resolved && records == old(records) + DecodeAll(body, 5, i)
      {
        records := records + [DecodeAt(body, pos)];
        pos := pos + RECORD_BYTES;
      }
      resolved := |records| >= total;
    }
  }

  datatype Fetched = Records(records: seq<Record>) | TimedOut

  lemma {:induction false} JoinedPrefix(batches: seq<seq<Record>>, i: nat)
    requires i <= |batches|
    ensures Joined(batches[..i]) <= Joined(batches)
    decreases |batches|
  {
    if i == |batches| {
      assert batches[..i] == batches;
    } else {
      var init := batches[..|batches| - 1];
      JoinedPrefix(init, i);
      assert init[..i] == batches[..i];
    }
  }

  /** What the client sees in frame `i`. */
  lemma FrameAt(frames: seq<seq<byte>>, batches: seq<seq<Record>>, total: nat, i: nat)
    requires Carries(frames, batches, total) && WireSized(Joined(batches)) && total < 0x1_0000 && i < |frames|
    ensures var f, n := frames[i], |batches[i]|;
            |f| == 5 + RECORD_BYTES * n && f[4] == n && ReadU16le(f, 2) == total && DecodeAll(f, 5, n) == batches[i]
    ensures Joined(batches[..i + 1]) == Joined(batches[..i]) + batches[i]
    ensures Joined(batches[..i + 1]) <= Joined(batches)
  {
    hide FrameOf, Joined, DecodeAll, ReadU16le;
    var sent := Joined(batches[..i + 1]);
    assert batches[..i + 1] == batches[..i] + [batches[i]];
    JoinedOne(batches[..i], batches[i]);
    JoinedPrefix(batches, i + 1);
    assert forall k :: 0 <= k < |batches[i]| ==> batches[i][k] == sent[|sent| - |batches[i]| + k];
    FrameDecodes(|Joined(batches[..i])|, total, batches[i]);
  }

  /** Feeds every frame of one reply to the client. It resolves, with everything that was
      sent, exactly when as many records were sent as the frames announce. */
  method Collect(frames: seq<seq<byte>>, ghost batches: seq<seq<Record>>, ghost total: nat) returns (r: Fetched)
    requires frames != [] && Carries(frames, batches, total) && WireSized(Joined(batches)) && |Joined(batches)| <= total < 0x1_0000
    ensures r == if |Joined(batches)| == total then Records(Joined(batches)) else TimedOut
  {
    var c := new Collector();
    assert batches[..0] == [];
    assert Joined(batches[..0]) == [];
    for i := 0 to |frames|
      invariant c.records <= Joined(batches)
      invariant !c.resolved ==> c.records == Joined(batches[..i])
      invariant i > 0 ==> (c.resolved <==> |c.records| == total)
      invariant i == 0 ==> !c.resolved
    {
      hide FrameOf, Joined, DecodeAll, ReadU16le, WireSized;
      FrameAt(frames, batches, total, i);
      c.OnFrame(frames[i]);
    }
    assert batches[..|frames|] == batches;
    r := if c.resolved then Records(c.records) else TimedOut;
  }

  lemma RetainedWireSized(h: seq<Entry>, since: nat)
    requires |h| < TWO32 && forall k :: 0 <= k < |h| ==> h[k].uptime < TWO32
    ensures WireSized(Retained(h, since))
  {
    WrittenGenuine(h, Start(|h|, since), |h|);
  }

  lemma NothingFailed(h: seq<Entry>, since: nat)
    ensures |Retained(h, since)| == Window(|h|, since) <==> forall n :: Start(|h|, since) <= n < |h| ==> h[n].stored
  {
    if Start(|h|, since) <= |h| { WrittenFull(h, Start(|h|, since), |h|); }
  }

  /** getEventLog against the board: the caller gets everything retained exactly when no
      write in the window failed; otherwise the announced total is never reached. */
  method GetEventLog(log: Log, since: nat) returns (r: Fetched)
    requires log.Valid() && since < TWO32 && log.lastSeq < TWO32
    requires forall k :: 0 <= k < |log.history| ==> log.history[k].uptime < TWO32
    ensures var h, start := log.history, Start(log.lastSeq, since);
            r == if forall n :: start <= n < |h| ==> h[n].stored then Records(Retained(h, since)) else TimedOut
  {
    hide Retained, Written, U32le, ReadU32le, Window, Start, Carries, WireSized;
    var payload := U32le(since);
    U32leRoundTrip(since, [], []);
    assert [] + payload + [] == payload;
    var frames, batches := SendLog(log, ReadU32le(payload, 0));
    RetainedWireSized(log.history, since);
    NothingFailed(log.history, since);
    RetainedBound(log.history, since);
    WindowIsSmall(log.lastSeq, since);
    r := Collect(frames, batches, Window(log.lastSeq, since));
  }

  lemma WindowIsSmall(last: nat, since: nat)
    ensures Window(last, since) <= SLOTS
  {
  }
}
