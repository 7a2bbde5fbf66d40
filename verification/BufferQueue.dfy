/** The chunked byte queue of packages/protocol/src/buffer-queue.ts, which refines one flat byte string. */
module BufferQueue {
  import opened Common

  class BufferQueue {
    var chunks: seq<Bytes>
    var totalLength: nat

    /** The abstract value: the queued bytes in order, however they are cut into chunks. */
    ghost function Contents(): Bytes
      reads this
    {
      Flatten(chunks)
    }

    ghost predicate Valid()
      reads this
    {
      totalLength == |Contents()| && [] !in chunks
    }

    constructor ()
      ensures Valid() && Contents() == []
    {
      chunks := [];
      totalLength := 0;
    }

    method Push(chunk: Bytes)
      requires Valid()
      modifies this
      ensures Valid()
      ensures Contents() == old(Contents()) + chunk
    {
      FlattenSnoc(chunks, chunk);
      if |chunk| == 0 {
        return;
      }
      chunks := chunks + [chunk];
      totalLength := totalLength + |chunk|;
    }

    method Peek(length: nat) returns (r: Option<Bytes>)
      requires Valid()
      modifies this
      ensures Valid()
      ensures unchanged(this)
      ensures r == if length > |Contents()| then None else Some(Contents()[..length])
    {
      if length > totalLength {
        return None;
      }
      var output := Copy(length, false);
      r := Some(output);
    }

    method Read(length: nat) returns (r: Option<Bytes>)
      requires Valid()
      modifies this
      ensures Valid()
      ensures length > |old(Contents())| ==> r == None && unchanged(this)
      ensures length <= |old(Contents())| ==>
                r == Some(old(Contents())[..length]) && Contents() == old(Contents())[length..]
    {
      if length > totalLength {
        return None;
      }
      var output := Copy(length, true);
      r := Some(output);
    }

    /** Fills a new buffer from the front of the queue; both callers have checked that enough bytes are there. */
    method Copy(length: nat, consume: bool) returns (output: Bytes)
      requires Valid() && length <= totalLength
      modifies this
      ensures Valid()
      ensures output == old(Contents())[..length]
      ensures consume ==> Contents() == old(Contents())[length..]
      ensures !consume ==> unchanged(this)
    {
      ghost var all := Contents();
      var buffer := new Byte[length];
      var offset: nat, remaining: nat, chunkIndex: nat := 0, length, 0;
      while remaining > 0
        invariant offset + remaining == length == buffer.Length
        invariant buffer[..offset] == all[..offset]
        invariant Valid()
        invariant consume ==> Contents() == all[offset..] && chunkIndex == 0
        invariant !consume ==> unchanged(this) && chunkIndex <= |chunks|
        invariant remaining > 0 ==> Flatten(chunks[chunkIndex..]) == all[offset..]
        decreases remaining
      {
        var index := if consume then 0 else chunkIndex;
        if index >= |chunks| {
          assert false;
          break;
        }
        var chunk := chunks[index];
        FirstChunk(chunks, index);
        var bytesToCopy := Min(|chunk|, remaining);
        CutFront(all, offset, chunk, Flatten(chunks[index + 1..]), bytesToCopy);
        CopyInto(buffer, offset, chunk, bytesToCopy);
        offset := offset + bytesToCopy;
        remaining := remaining - bytesToCopy;
        if consume {
          if bytesToCopy == |chunk| {
            chunks := chunks[1..];
          } else {
            ReplaceFront(chunks, chunk[bytesToCopy..]);
            chunks := chunks[0 := chunk[bytesToCopy..]];
          }
          totalLength := totalLength - bytesToCopy;
          assert chunks[0..] == chunks;
        } else {
          chunkIndex := chunkIndex + 1;
        }
      }
      assert buffer[..] == buffer[..length];
      output := buffer[..];
    }

    /** `Buffer.copy`: the first `count` bytes of `chunk` go to `buffer` from `offset` on. */
    static method CopyInto(buffer: array<Byte>, offset: nat, chunk: Bytes, count: nat)
      requires offset + count <= buffer.Length && count <= |chunk|
      modifies buffer
      ensures buffer[..offset + count] == old(buffer[..offset]) + chunk[..count]
    {
      forall i | 0 <= i < count {
        buffer[offset + i] := chunk[i];
      }
    }
  }

  lemma FirstChunk(chunks: seq<Bytes>, index: nat)
    requires index < |chunks| && [] !in chunks
    ensures Flatten(chunks[index..]) == chunks[index] + Flatten(chunks[index + 1..])
    ensures |chunks[index]| > 0
    ensures chunks[index] in chunks
  {
    assert chunks[index..][1..] == chunks[index + 1..];
  }

  lemma ReplaceFront(chunks: seq<Bytes>, chunk: Bytes)
    requires chunks != [] && [] !in chunks && chunk != []
    ensures Flatten(chunks[0 := chunk]) == chunk + Flatten(chunks[1..])
    ensures [] !in chunks[0 := chunk]
  {
    assert chunks[0 := chunk][1..] == chunks[1..];
  }

  lemma CutFront(all: Bytes, offset: nat, chunk: Bytes, tail: Bytes, count: nat)
    requires offset <= |all| && count <= |chunk|
    requires all[offset..] == chunk + tail
    ensures offset + count <= |all|
    ensures all[..offset + count] == all[..offset] + chunk[..count]
    ensures all[offset + count..] == chunk[count..] + tail
  {
    assert |all| - offset == |chunk| + |tail|;
    assert all[offset + count..] == all[offset..][count..];
    assert forall i | offset <= i < offset + count :: all[i] == all[offset..][i - offset];
  }
}
