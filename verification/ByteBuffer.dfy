/**
 * The growable byte buffer (code/base/buffer): bytes between a read and a write
 * position of one array, compacted in place or grown when space runs out. Seen
 * from outside it is a byte sequence, and its array stays proportional to the
 * largest amount it was ever asked to hold.
 */
module ByteBuffer {
  import opened Basics

  const INITIAL_SIZE: nat := 4096

  /** The stack array `ReadFd` spills into. */
  const SPILL_SIZE: nat := 65536

  function Max(a: nat, b: nat): nat { if a < b then b else a }

  /** The capacity allowed after holding or being asked for at most `peak` bytes. */
  function CapacityBound(initial: nat, peak: nat): nat {
    Max(initial, Max(2 * peak, peak + INITIAL_SIZE))
  }

  lemma JoinSlices(all: Bytes, from: nat, mid: nat, n: nat)
    requires from <= mid && mid + n <= |all|
    ensures all[from..mid + n] == all[from..mid] + all[mid..mid + n]
  {
  }

  class Buffer {
    var data: array<byte>
    var readPos: nat
    var writePos: nat
    const initialSize: nat
    /** The most bytes it had to hold at once: readable plus requested. */
    ghost var peak: nat

    ghost predicate Valid()
      reads this, data
    {
      && readPos <= writePos <= data.Length
      && data.Length <= CapacityBound(initialSize, peak)
    }

    ghost function Contents(): Bytes
      requires Valid()
      reads this, data
    {
      data[readPos..writePos]
    }

    constructor (initialSize: nat)
      requires 0 < initialSize
      ensures Valid() && fresh(data)
      ensures Contents() == [] && peak == 0 && this.initialSize == initialSize
      ensures data.Length == initialSize
    {
      data := new byte[initialSize];
      readPos, writePos := 0, 0;
      this.initialSize := initialSize;
      peak := 0;
    }

    function ReadableBytes(): nat
      requires Valid()
      reads this, data
      ensures ReadableBytes() == |Contents()|
    {
      writePos - readPos
    }

    function WritableBytes(): nat
      requires Valid()
      reads this, data
    {
      data.Length - writePos
    }

    function PrependableBytes(): nat
      reads this
    {
      readPos
    }

    method Retrieve(len: nat)
      requires Valid() && len <= ReadableBytes()
      modifies this`readPos, this`writePos
      ensures Valid() && Contents() == old(Contents())[len..]
    {
      if len < ReadableBytes() {
        readPos := readPos + len;
      } else {
        RetrieveAll();
      }
    }

    method RetrieveAll()
      requires Valid()
      modifies this`readPos, this`writePos
      ensures Valid() && Contents() == [] && WritableBytes() == data.Length
    {
      readPos := 0;
      writePos := 0;
    }

    /** Moves the readable bytes to the front of the array; source and destination overlap. */
    method Compact()
      requires Valid()
      modifies this`readPos, this`writePos, data
      ensures Valid() && readPos == 0 && Contents() == old(Contents())
    {
      var readable := writePos - readPos;
      var i := 0;
      while i < readable
        invariant 0 <= i <= readable && readPos == old(readPos) && writePos == old(writePos)
        invariant forall k :: 0 <= k < i ==> data[k] == old(data[readPos + k])
        invariant forall k :: i <= k < data.Length ==> data[k] == old(data[k])
      {
        data[i] := data[readPos + i];
        i := i + 1;
      }
      readPos := 0;
      writePos := readable;
    }

    /** `resize`: a longer array with the same bytes at the same positions. */
    method Grow(newSize: nat)
      requires Valid() && data.Length <= newSize <= CapacityBound(initialSize, peak)
      modifies this`data
      ensures Valid() && fresh(data) && data.Length == newSize
      ensures Contents() == old(Contents())
    {
      var bigger := new byte[newSize];
      forall i | 0 <= i < data.Length {
        bigger[i] := data[i];
      }
      data := bigger;
    }

    method MakeSpace(needed: nat)
      requires Valid() && WritableBytes() < needed && ReadableBytes() + needed <= peak
      modifies this`data, this`readPos, this`writePos, data
      ensures Valid() && (data == old(data) || fresh(data))
      ensures needed <= WritableBytes() && Contents() == old(Contents())
    {
      if WritableBytes() + PrependableBytes() < needed {
        Grow(Max(writePos + needed, needed + INITIAL_SIZE));
      } else {
        Compact();
      }
    }

    method EnsureWritable(len: nat)
      requires Valid()
      modifies this, data
      ensures Valid() && (data == old(data) || fresh(data))
      ensures len <= WritableBytes() && Contents() == old(Contents())
      ensures peak == Max(old(peak), |Contents()| + len)
    {
      peak := Max(peak, ReadableBytes() + len);
      if WritableBytes() < len {
        MakeSpace(len);
      }
    }

    method Append(bytes: Bytes)
      requires Valid()
      modifies this, data
      ensures Valid() && (data == old(data) || fresh(data))
      ensures Contents() == old(Contents()) + bytes
      ensures peak == Max(old(peak), |Contents()|)
    {
      EnsureWritable(|bytes|);
      Write(bytes);
    }

    /** The copy into the writable part. */
    method Store(bytes: Bytes)
      requires Valid() && |bytes| <= WritableBytes()
      modifies data
      ensures Valid() && Contents() == old(Contents())
      ensures data[writePos..writePos + |bytes|] == bytes
    {
      forall i | 0 <= i < |bytes| {
        data[writePos + i] := bytes[i];
      }
    }

    /** The copy and `HasWritten`. */
    method Write(bytes: Bytes)
      requires Valid() && |bytes| <= WritableBytes()
      modifies this`writePos, data
      ensures Valid() && Contents() == old(Contents()) + bytes
      ensures writePos == old(writePos) + |bytes|
    {
      Store(bytes);
      JoinSlices(data[..], readPos, writePos, |bytes|);
      writePos := writePos + |bytes|;
    }

    /**
     * `readv` over the writable part and the spill array delivered `received`
     * (`None` is a negative result); the part that spilled is appended.
     */
    method ReadFd(received: Option<Bytes>) returns (n: int)
      requires Valid()
      requires received.Some? ==> |received.value| <= WritableBytes() + SPILL_SIZE
      modifies this, data
      ensures Valid() && (data == old(data) || fresh(data))
      ensures n == if received.Some? then |received.value| else -1
      ensures Contents() == old(Contents()) + (if received.Some? then received.value else [])
      ensures peak <= Max(old(peak), |Contents()|)
    {
      if received.None? {
        return -1;
      }
      var bytes := received.value;
      n := |bytes|;
      var writable := WritableBytes();
      ghost var before := Contents();
      if n <= writable {
        Write(bytes);
      } else {
        Write(bytes[..writable]);
        Append(bytes[writable..]);
        assert bytes == bytes[..writable] + bytes[writable..];
        assert Contents() == before + (bytes[..writable] + bytes[writable..]);
      }
    }

    method ReadString(n: nat) returns (result: Bytes)
      requires Valid() && n <= ReadableBytes()
      modifies this`readPos, this`writePos
      ensures Valid() && result + Contents() == old(Contents()) && |result| == n
    {
      result := data[readPos..readPos + n];
      Retrieve(n);
    }

    /** The next frame length, without consuming it. */
    method PeekInt32() returns (v: nat)
      requires Valid() && 4 <= ReadableBytes()
      ensures v == BigEndian(Contents()[..4])
    {
      v := BigEndian(data[readPos..readPos + 4]);
    }

    method ReadInt32() returns (v: nat)
      requires Valid() && 4 <= ReadableBytes()
      modifies this`readPos, this`writePos
      ensures Valid() && v == BigEndian(old(Contents())[..4]) && Contents() == old(Contents())[4..]
    {
      v := PeekInt32();
      Retrieve(4);
    }
  }
}
