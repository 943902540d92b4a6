/** The controller's sparse flash: 64 KiB of storage inside a 512 KiB address space that reads
    as erased bytes above the storage. */
module Spi {
  import opened ControllerState

  const ADDRESS_LIMIT := 0x8_0000
  const STORAGE_SIZE := 0x1_0000
  const MAX_READ := 0x1D
  const ERASED: U8 := 0xFF

  datatype SpiResult = Ok | InvalidArgument | AddressOutOfRange | ReadTooLarge | BufferTooSmall

  /** The image with `data` written at `address`. */
  function WriteAt(image: seq<U8>, address: nat, data: seq<U8>): (r: seq<U8>)
    requires address + |data| <= |image|
    ensures |r| == |image|
    ensures forall a :: 0 <= a < |image| ==> r[a] == if address <= a < address + |data| then data[a - address]
        else image[a]
  {
    image[..address] + data + image[address + |data|..]
  }

  /** The byte an address reads as. */
  function Fetch(image: seq<U8>, fallback: U8, address: nat): U8 {
    if address < |image| then image[address] else fallback
  }

  function ReadRange(image: seq<U8>, fallback: U8, address: nat, size: nat): (r: seq<U8>)
    ensures |r| == size
    ensures forall i :: 0 <= i < size ==> r[i] == Fetch(image, fallback, address + i)
  {
    seq<U8>(size, i requires 0 <= i < size => Fetch(image, fallback, address + i))
  }

  /** Adjacent reads join up. */
  lemma ReadRangeJoins(image: seq<U8>, fallback: U8, address: nat, n: nat, m: nat)
    ensures ReadRange(image, fallback, address, n) + ReadRange(image, fallback, address + n, m)
         == ReadRange(image, fallback, address, n + m)
  {
  }

  class Flash {
    const data: array<U8>
    var fallback: U8

    ghost predicate Valid()
      reads this
    {
      data.Length == STORAGE_SIZE
    }

    constructor ()
      ensures Valid() && fresh(data) && fallback == ERASED
      ensures forall a :: 0 <= a < STORAGE_SIZE ==> data[a] == ERASED
    {
      data := new U8[STORAGE_SIZE];
      fallback := ERASED;
      new;
      for i := 0 to STORAGE_SIZE
        invariant fallback == ERASED && forall a :: 0 <= a < i ==> data[a] == ERASED
      {
        data[i] := fallback;
      }
    }

    method Write(address: U32, bytes: seq<U8>) returns (result: SpiResult)
      requires Valid()
      modifies data
      ensures result == if address + |bytes| > STORAGE_SIZE then AddressOutOfRange else Ok
      ensures data[..] == if result == Ok then WriteAt(old(data[..]), address, bytes) else old(data[..])
    {
      if |bytes| > STORAGE_SIZE || address > STORAGE_SIZE - |bytes| {
        return AddressOutOfRange;
      }
      for i := 0 to |bytes|
        invariant data[..] == WriteAt(old(data[..]), address, bytes[..i])
      {
        data[address + i] := bytes[i];
      }
      assert bytes[..|bytes|] == bytes;
      return Ok;
    }

    /** Reads into `out` from position `at`, where `capacity` bytes are free. */
    method Read(address: U32, size: U8, out: array<U8>, at: nat, capacity: nat) returns (result: SpiResult,
        written: nat)
      requires Valid() && at + capacity <= out.Length && out != data
      modifies out
      ensures result == if size > MAX_READ then ReadTooLarge
                        else if address + size > ADDRESS_LIMIT then AddressOutOfRange
                        else if capacity < size then BufferTooSmall else Ok
      ensures written == if result in {Ok, BufferTooSmall} then size else 0
      ensures out[..] ==
          if result == Ok then old(out[..at]) + ReadRange(data[..], fallback, address, size) + old(out[at + size..])
                         else old(out[..])
    {
      if size > MAX_READ {
        return ReadTooLarge, 0;
      }
      if address > ADDRESS_LIMIT - size {
        return AddressOutOfRange, 0;
      }
      if capacity < size {
        return BufferTooSmall, size;
      }
      for i := 0 to size
        invariant out[..] == old(out[..at]) + ReadRange(data[..], fallback, address, i) + old(out[at + i..])
        invariant data[..] == old(data[..])
      {
        var absolute := address + i;
        out[at + i] := if absolute < STORAGE_SIZE then data[absolute] else fallback;
      }
      return Ok, size;
    }
  }
}
