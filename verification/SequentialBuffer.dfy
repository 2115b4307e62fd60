/** The single-producer single-consumer byte buffer of lib_util/sequential_buffer.h as a class. */
module SequentialBuffer {
  import opened Bytes
  import opened RingBytes

  class Buffer {
    const data: array<byte>
    var readPtr: nat
    var writePtr: nat
    var free: nat

    ghost predicate Valid()
      reads this
    {
      && free <= data.Length
      && (data.Length == 0 ==> readPtr == 0 && writePtr == 0)
      && (data.Length > 0 ==> readPtr < data.Length && writePtr == Pos(readPtr, data.Length - free, data.Length))
    }

    /** The bytes written and not yet committed by the reader, oldest first. */
    ghost function Contents(): (c: seq<byte>)
      requires Valid()
      reads this, data
      ensures |c| == data.Length - free
    {
      Ring(data[..], readPtr, data.Length - free)
    }

    constructor (size: nat)
      ensures Valid() && fresh(data) && data.Length == size && Contents() == []
    {
      data := new byte[size];
      readPtr, writePtr, free := 0, 0, size;
    }

    method Clear()
      requires Valid()
      modifies this
      ensures Valid() && Contents() == []
    {
      readPtr, writePtr, free := 0, 0, data.Length;
    }

    method Size() returns (n: nat)
      requires Valid()
      ensures n == |Contents()|
    {
      n := data.Length - free;
    }

    /** The copies of `write`: in one piece, or to the end of the array and on from its start. */
    method CopyIn(src: seq<byte>)
      requires Valid() && 0 < |src| <= free
      modifies this`writePtr, data
      ensures writePtr == Pos(old(writePtr), |src|, data.Length)
      ensures data[..] == RingPut(old(data[..]), old(writePtr), src)
    {
      if writePtr >= readPtr {
        var appendSize := Min(|src|, data.Length - writePtr);
        CopyInto(data, writePtr, src[..appendSize]);
        writePtr := writePtr + appendSize;
        if writePtr == data.Length { writePtr := 0; }
        var prependSize := |src| - appendSize;
        if prependSize > 0 {
          CopyInto(data, writePtr, src[appendSize..]);
          writePtr := writePtr + prependSize;
        }
      } else {
        assert writePtr + |src| <= readPtr;
        CopyInto(data, writePtr, src);
        writePtr := writePtr + |src|;
      }
    }

    /** All of the bytes are appended, or none when they do not fit or there are none. */
    method Write(src: seq<byte>) returns (rc: int)
      requires Valid()
      modifies this, data
      ensures Valid()
      ensures rc == (if 0 < |src| <= old(free) then 0 else -1)
      ensures Contents() == old(Contents()) + if 0 < |src| <= old(free) then src else []
    {
      if |src| == 0 || free < |src| { return -1; }
      ghost var mem, live := data[..], data.Length - free;
      CopyIn(src);
      free := free - |src|;
      RingAppended(mem, readPtr, live, src);
      rc := 0;
    }

    /** The longest stretch of contents that lies in one piece; asking again gives the same answer. */
    method RequestRead() returns (rc: int, start: nat, available: nat)
      requires Valid()
      ensures start == readPtr && start + available <= data.Length
      ensures available == Min(|Contents()|, data.Length - readPtr)
      ensures data[start..start + available] == Contents()[..available]
      ensures rc == (if Contents() != [] then 0 else -1)
    {
      if readPtr < writePtr {
        available := writePtr - readPtr;
      } else if data.Length - free > 0 {
        available := data.Length - readPtr;
      } else {
        available := 0;
      }
      start := readPtr;
      rc := if available > 0 then 0 else -1;
      assert available == Min(data.Length - free, data.Length - readPtr);
      hide Ring;
      RingPrefix(data[..], readPtr, data.Length - free, available);
      RingSlice(data[..], readPtr, available);
    }

    /** The reader may commit what it was handed, or less. */
    method CommitRead(n: nat)
      requires Valid() && n <= |Contents()| && readPtr + n <= data.Length
      modifies this
      ensures Valid() && Contents() == old(Contents())[n..]
    {
      ghost var live := data.Length - free;
      if 0 < n < data.Length {
        RingSplit(data[..], readPtr, n, live - n);
      }
      readPtr := readPtr + n;
      if readPtr == data.Length { readPtr := 0; }
      free := free + n;
    }
  }
}
