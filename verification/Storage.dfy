/**
 The staging partition and the digest provider, as the firmware sees them: any call may fail, and a
 failed erase or write may leave anything in its range. `faults` counts the calls that failed.
 */
module Storage {
  import opened Bytes
  import Fips180
  import Sha256Portable

  /** Programming flash can only clear bits; erasing sets them all. */
  function Programmed(cell: byte, data: byte): byte { Val(Bits(cell) & Bits(data)) }

  lemma OnesMask(b: bv8)
    ensures Bits(0xff) & b == b
  {}

  lemma ProgrammedErased(data: byte)
    ensures Programmed(0xff, data) == data
  {
    ValBits(data);
    OnesMask(Bits(data));
  }

  class Flash {
    const cells: array<byte>
    ghost var faults: nat

    constructor (size: nat)
      ensures fresh(cells) && cells.Length == size && faults == 0
    {
      cells := new byte[size](_ => 0xff);
      faults := 0;
    }

    method EraseRange(offset: nat, length: nat) returns (ok: bool)
      modifies this`faults, cells
      ensures faults >= old(faults)
      ensures ok <==> offset + length <= cells.Length && faults == old(faults)
      ensures ok ==> forall i :: offset <= i < offset + length ==> cells[i] == 0xff
      ensures forall i :: 0 <= i < cells.Length && !(offset <= i < offset + length) ==> cells[i] == old(cells[i])
    {
      if offset + length > cells.Length { return false; }
      ok := *;
      if !ok {
        faults := faults + 1;
        Disturb(offset, length);
      } else {
        forall i | offset <= i < offset + length { cells[i] := 0xff; }
      }
    }

    method Erase() returns (ok: bool)
      modifies this`faults, cells
      ensures faults >= old(faults) && (ok <==> faults == old(faults))
      ensures ok ==> forall i :: 0 <= i < cells.Length ==> cells[i] == 0xff
    {
      ok := EraseRange(0, cells.Length);
    }

    method Write(offset: nat, data: seq<byte>) returns (ok: bool)
      modifies this`faults, cells
      ensures faults >= old(faults)
      ensures ok <==> offset + |data| <= cells.Length && faults == old(faults)
      ensures ok ==> forall i :: offset <= i < offset + |data| ==>
        cells[i] == Programmed(old(cells[i]), data[i - offset])
      ensures forall i :: 0 <= i < cells.Length && !(offset <= i < offset + |data|) ==> cells[i] == old(cells[i])
    {
      hide Programmed;
      if offset + |data| > cells.Length { return false; }
      ok := *;
      if !ok {
        faults := faults + 1;
        Disturb(offset, |data|);
      } else {
        forall i | offset <= i < offset + |data| { cells[i] := Programmed(cells[i], data[i - offset]); }
      }
    }

    /** Reads into a buffer with the given room. */
    method Read(offset: nat, length: nat, room: nat) returns (ok: bool, data: seq<byte>)
      requires length <= room
      modifies this`faults
      ensures faults >= old(faults)
      ensures ok <==> offset + length <= cells.Length && faults == old(faults)
      ensures ok ==> data == cells[offset..offset + length]
    {
      data := [];
      if offset + length > cells.Length { return false, data; }
      ok := *;
      if ok {
        data := cells[offset..offset + length];
      } else {
        faults := faults + 1;
      }
    }

    /** Whatever a failed operation leaves behind. */
    method Disturb(offset: nat, length: nat)
      requires offset + length <= cells.Length
      modifies cells
      ensures forall i :: 0 <= i < cells.Length && !(offset <= i < offset + length) ==> cells[i] == old(cells[i])
    {
      for k := offset to offset + length
        invariant forall i :: 0 <= i < cells.Length && !(offset <= i < offset + length) ==> cells[i] == old(cells[i])
      {
        var junk: byte := *;
        cells[k] := junk;
      }
    }
  }

  /** A SHA-256 provider: calls that succeed compute FIPS 180-4, any call may fail. */
  class DigestProvider {
    const context: Sha256Portable.Context
    ghost var faults: nat

    constructor ()
      ensures Ready() && faults == 0 && fresh(context) && fresh(context.state) && fresh(context.block)
    {
      context := new Sha256Portable.Context();
      faults := 0;
    }

    ghost predicate Ready() { context.Shaped() }

    /** A hash is under way and has absorbed the given bytes. */
    ghost predicate Absorbed(message: seq<byte>)
      reads context, context.state, context.block
    {
      context.Valid() && context.message == message
    }

    method Begin() returns (ok: bool)
      requires Ready()
      modifies this, context, context.state, context.block
      ensures faults >= old(faults) && (ok <==> faults == old(faults))
      ensures ok ==> Absorbed([])
    {
      ok := *;
      if ok { context.Begin(); } else { faults := faults + 1; }
    }

    method Update(ghost message: seq<byte>, data: seq<byte>) returns (ok: bool)
      requires Ready() && Absorbed(message) && |message| + |data| <= U64_MAX
      modifies this, context, context.state, context.block
      ensures faults >= old(faults) && (ok <==> faults == old(faults))
      ensures ok ==> Absorbed(message + data)
    {
      ok := *;
      if ok {
        var accepted := context.Update(data);
      } else {
        faults := faults + 1;
      }
    }

    method Finish(ghost message: seq<byte>) returns (ok: bool, digest: seq<byte>)
      requires Ready() && Absorbed(message) && |message| <= U64_MAX / 8
      modifies this, context, context.state, context.block
      ensures faults >= old(faults) && (ok <==> faults == old(faults))
      ensures ok ==> digest == Fips180.Sha256(message)
    {
      hide Fips180.Sha256;
      digest := [];
      ok := *;
      if ok {
        ok, digest := context.Finish();
      } else {
        faults := faults + 1;
      }
    }
  }
}
