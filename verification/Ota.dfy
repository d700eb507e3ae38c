/**
  Firmware updates (firmware/components/core/mc_ota.c): an image streams straight to the
  inactive flash partition while its SHA-512 runs, and is committed only when the digest
  matches the one whose signature was checked before the first byte.
 */
module Ota {
  import opened Bytes
  import opened Sha512

  const MAX_IMAGE: nat := 0x18_0000

  datatype State = Idle | Receiving | Committed | Error

  datatype Outcome = Done | BadState | BadSize | BadSignature | OutOfOrder | Overrun | HashMismatch | FlashFailed | UnsafeState

  /** A flash operation either works or stops after some bytes and reports failure. */
  datatype Fault = Works | StopsAfter(bytes: nat)

  /** The inactive partition. The n-th operation on it meets `faults(n)`. */
  class Flash {
    const cells: array<byte>
    const faults: nat -> Fault
    var ops: nat

    constructor (faults: nat -> Fault)
      ensures cells.Length == MAX_IMAGE && fresh(cells) && this.faults == faults && ops == 0
    {
      this.faults, ops := faults, 0;
      cells := new byte[MAX_IMAGE](_ => 0xFF);
    }

    method Step() returns (ok: bool)
      modifies this`ops
      ensures ops == old(ops) + 1 && ok == faults(old(ops)).Works?
    {
      ok := faults(ops).Works?;
      ops := ops + 1;
    }

    method Write(offset: nat, data: seq<byte>) returns (ok: bool)
      requires offset + |data| <= cells.Length
      modifies this`ops, cells
      ensures ops == old(ops) + 1 && ok == faults(old(ops)).Works?
      ensures cells[..offset] == old(cells[..offset])
      ensures ok ==> cells[offset..offset + |data|] == data
    {
      var n := match faults(ops) case Works => |data| case StopsAfter(k) => if k < |data| then k else |data|;
      for i := 0 to n
        invariant cells[..offset] == old(cells[..offset]) && cells[offset..offset + i] == data[..i]
        invariant ops == old(ops)
      {
        cells[offset + i] := data[i];
        assert cells[offset..offset + i + 1] == cells[offset..offset + i] + [data[i]];
      }
      ok := Step();
    }
  }

  class Updater {
    const flash: Flash
    const hash: Context
    /** Signature check of a digest under the release key. */
    const verify: (seq<byte>, seq<byte>) -> bool
    var state: State
    var imageSize: nat
    var bytesReceived: nat
    var declared: seq<byte>
    /** The data of every chunk accepted since the last begin, and the signature it gave. */
    ghost var got: seq<byte>
    ghost var signature: seq<byte>

    ghost function Parts(): set<object>
      reads this
    {
      {this, flash, flash.cells, hash, hash.block}
    }

    ghost predicate Valid()
      reads Parts()
    {
      && flash.cells.Length == MAX_IMAGE && hash.block.Length == BLOCK && hash.block != flash.cells
      && (state == Receiving ==> InTransfer() && hash.Valid() && hash.msg == got)
      && (state == Committed ==> InTransfer() && Genuine())
    }

    /** What is on flash is what was accepted, under a size and a digest that were checked. */
    ghost predicate InTransfer()
      requires flash.cells.Length == MAX_IMAGE
      reads this, flash, flash.cells
    {
      && 0 < imageSize <= MAX_IMAGE && |got| == bytesReceived <= imageSize
      && flash.cells[..bytesReceived] == got
      && verify(declared, signature)
    }

    /** The whole image arrived and hashes to the declared digest. */
    ghost predicate Genuine()
      reads this
    {
      bytesReceived == imageSize && Digest(hash.compress, got) == declared
    }

    constructor (flash: Flash, compress: Compress, verify: (seq<byte>, seq<byte>) -> bool)
      requires flash.cells.Length == MAX_IMAGE
      ensures Valid() && state == Idle && this.flash == flash && this.verify == verify && hash.compress == compress
      ensures fresh(hash) && fresh(hash.block)
    {
      this.flash, this.verify := flash, verify;
      hash := new Context(compress);
      state, imageSize, bytesReceived, declared, got, signature := Idle, 0, 0, [], [], [];
    }

    /** The checks of mc_ota_begin, in its order, short of the flash. */
    function Refusal(size: nat, digest: seq<byte>, sig: seq<byte>, safe: bool): Outcome
      reads this
    {
      if state != Idle then BadState
      else if size == 0 || size > MAX_IMAGE then BadSize
      else if !safe then UnsafeState
      else if !verify(digest, sig) then BadSignature
      else Done
    }

    method Begin(size: nat, digest: seq<byte>, sig: seq<byte>, safe: bool) returns (r: Outcome)
      requires Valid()
      modifies this, flash`ops, hash
      ensures Valid()
      ensures old(Refusal(size, digest, sig, safe)) != Done ==> r == old(Refusal(size, digest, sig, safe)) && flash.ops == old(flash.ops)
      ensures old(Refusal(size, digest, sig, safe)) == Done ==>
                flash.ops == old(flash.ops) + 1 && r == if flash.faults(old(flash.ops)).Works? then Done else FlashFailed
      ensures r == Done ==> state == Receiving && imageSize == size && declared == digest && signature == sig && got == [] && bytesReceived == 0
      ensures r != Done ==> state == old(state) && got == old(got)
    {
      hide Digest, Context.Valid;
      if state != Idle { return BadState; }
      if size == 0 || size > MAX_IMAGE { return BadSize; }
      if !safe { return UnsafeState; }
      if !verify(digest, sig) { return BadSignature; }
      var ok := flash.Step();
      if !ok { return FlashFailed; }
      declared, imageSize, bytesReceived := digest, size, 0;
      got, signature := [], sig;
      hash.Reset();
      state := Receiving;
      r := Done;
    }

    /** Data already on flash is counted and hashed. */
    method Take(data: seq<byte>)
      requires Valid() && state == Receiving && bytesReceived + |data| <= imageSize
      requires flash.cells[bytesReceived..bytesReceived + |data|] == data
      modifies this`bytesReceived, this`got, hash, hash.block
      ensures Valid() && got == old(got) + data && bytesReceived == old(bytesReceived) + |data|
    {
      hide Digest;
      PrefixGrows(flash.cells[..], bytesReceived, data);
      hash.Update(data);
      bytesReceived := bytesReceived + |data|;
      got := got + data;
    }

    static lemma PrefixGrows(cells: seq<byte>, at: nat, data: seq<byte>)
      requires at + |data| <= |cells| && cells[at..at + |data|] == data
      ensures cells[..at + |data|] == cells[..at] + data
    {
    }

    method Chunk(offset: nat, data: seq<byte>) returns (r: Outcome)
      requires Valid()
      modifies this, flash`ops, flash.cells, hash, hash.block
      ensures Valid() && imageSize == old(imageSize) && declared == old(declared) && signature == old(signature)
      ensures old(state) != Receiving ==> r == BadState && state == old(state) && flash.cells[..] == old(flash.cells[..])
      ensures old(state) == Receiving ==>
                && flash.ops == old(flash.ops) + (if offset == |old(got)| && offset + |data| <= imageSize then 1 else 0)
                && r == (if offset != |old(got)| then OutOfOrder else if offset + |data| > imageSize then Overrun
                         else if flash.faults(old(flash.ops)).Works? then Done else FlashFailed)
                && state == (if r == Done then Receiving else Error)
                && got == (if r == Done then old(got) + data else old(got))
    {
      hide Digest;
      if state != Receiving { return BadState; }
      if offset != bytesReceived { state := Error; return OutOfOrder; }
      if bytesReceived + |data| > imageSize { state := Error; return Overrun; }
      var ok := flash.Write(offset, data);
      if !ok { state := Error; return FlashFailed; }
      Take(data);
      r := Done;
    }

    method Commit() returns (r: Outcome)
      requires Valid()
      modifies this`state, flash`ops, hash`h
      ensures Valid()
      ensures old(state) != Receiving || bytesReceived != imageSize ==> r == BadState && state == old(state)
      ensures old(state) == Receiving && bytesReceived == imageSize ==>
                && r == (if Digest(hash.compress, got) != declared then HashMismatch
                         else if flash.faults(old(flash.ops)).Works? then Done else FlashFailed)
                && state == if r == Done then Committed else Error
    {
      hide Digest;
      if state != Receiving || bytesReceived != imageSize { return BadState; }
      var computed := hash.Final();
      if computed != declared { state := Error; return HashMismatch; }
      var ok := flash.Step();
      if !ok { state := Error; return FlashFailed; }
      state := Committed;
      r := Done;
    }

    method Abort()
      requires Valid()
      modifies this`state, this`imageSize, this`bytesReceived, flash`ops
      ensures Valid() && state == Idle && imageSize == 0 && bytesReceived == 0
    {
      var _ := flash.Step();
      state, imageSize, bytesReceived := Idle, 0, 0;
    }

    /** `boots` says whether the device restarts into the new image. */
    method Reboot(safe: bool) returns (r: Outcome, boots: bool)
      requires Valid()
      ensures r == (if state != Committed then BadState else if !safe then UnsafeState else Done)
      ensures boots <==> r == Done
      ensures boots ==> safe && flash.cells[..imageSize] == got && Digest(hash.compress, got) == declared && verify(declared, signature)
    {
      if state != Committed { return BadState, false; }
      if !safe { return UnsafeState, false; }
      return Done, true;
    }
  }
}
