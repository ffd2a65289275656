/**
 The seekable reader over an index: it holds one decoded chunk and moves between chunks by
 bisection. It behaves as a reader over the plain blob with a position.
 */
module ReadSeeker {
  import opened Chunking
  import opened Planning
  import opened IndexedBlob

  const I63 := 0x8000_0000_0000_0000

  type Int64 = x: int | -I63 <= x < I63

  /** Signed 64-bit addition. */
  function Add64(a: Int64, b: Int64): (r: Int64) {
    var s := a + b;
    if s >= I63 then s - 2 * I63 else if s < -I63 then s + 2 * I63 else s
  }

  datatype Whence = SeekStart | SeekCurrent | SeekEnd | Invalid

  datatype Error = Ok | Eof | Failed

  class IndexPos {
    const chunks: seq<IndexChunk>
    const length: nat
    const nullID: ChunkID
    const nullData: seq<Byte>
    const store: ChunkID -> seq<Byte>
    ghost const blob: seq<Byte>
    var pos: nat
    var curChunkID: ChunkID
    var curChunk: seq<Byte>
    var curChunkIdx: nat
    var curChunkOffset: nat
    ghost var fails: nat  // errors returned by the store

    /** An index of the blob, a store that has its chunks, and a null chunk that is what its ID says. */
    ghost predicate Source() {
      && Covers(chunks, blob) && length == |blob| < I63
      && forall i :: 0 <= i < |chunks| ==> GoodChunk(i)
    }

    ghost predicate GoodChunk(i: nat)
      requires i < |chunks| && Covers(chunks, blob)
    {
      store(chunks[i].id) == Slice(chunks, blob, i) && (chunks[i].id == nullID ==> nullData == Slice(chunks, blob, i))
    }

    /** The current chunk holds the position; only at the end of the blob may the offset be its size. */
    ghost predicate Valid()
      reads this
    {
      && Source()
      && curChunkIdx < |chunks| && curChunkID == chunks[curChunkIdx].id
      && pos == chunks[curChunkIdx].start + curChunkOffset && pos <= length
      && (curChunkOffset < chunks[curChunkIdx].size || (curChunkOffset == chunks[curChunkIdx].size && curChunkIdx == |chunks| - 1))
      && (curChunk == [] || curChunk == Slice(chunks, blob, curChunkIdx))
    }

    constructor (chunks: seq<IndexChunk>, nullID: ChunkID, nullData: seq<Byte>, store: ChunkID -> seq<Byte>, ghost blob: seq<Byte>)
      requires Covers(chunks, blob) && |blob| < I63
      requires forall i :: 0 <= i < |chunks| ==> store(chunks[i].id) == Slice(chunks, blob, i)
      requires forall i :: 0 <= i < |chunks| && chunks[i].id == nullID ==> nullData == Slice(chunks, blob, i)
      ensures Valid() && pos == 0 && this.blob == blob && fails == 0
    {
      this.chunks, this.nullID, this.nullData, this.store, this.blob := chunks, nullID, nullData, store, blob;
      length := chunks[|chunks| - 1].End();
      pos, curChunkID, curChunk, curChunkIdx, curChunkOffset, fails := 0, chunks[0].id, [], 0, 0, 0;
      new;
      assert forall i :: 0 <= i < |chunks| ==> GoodChunk(i);
    }

    /** Move to newPos; beyond the end nothing changes. */
    method FindOffset(newPos: nat) returns (r: nat, ok: bool)
      requires Valid()
      modifies this
      ensures Valid() && r == pos && fails == old(fails)
      ensures ok <==> newPos <= length
      ensures pos == if ok then newPos else old(pos)
      ensures curChunkIdx == old(curChunkIdx) ==> curChunk == old(curChunk)
    {
      hide Slice, GoodChunk, Consecutive, Positive;
      var delta: int := newPos - pos;
      Inside(chunks, blob, curChunkIdx);
      if delta == 0 {
        return pos, true;
      }
      if 0 <= delta + curChunkOffset < chunks[curChunkIdx].size {
        pos := pos + delta;
        curChunkOffset := curChunkOffset + delta;
        return pos, true;
      }
      var newChunkIdx := SearchEnd(chunks, newPos);
      FoundHolds(chunks, blob, newPos, newChunkIdx);
      if newChunkIdx >= |chunks| {
        newChunkIdx := |chunks| - 1;
      }
      var newChunk := chunks[newChunkIdx];
      if newPos < newChunk.start {
        return pos, false;
      }
      if newPos > newChunk.End() {
        return pos, false;
      }
      if newChunk.id != curChunkID {
        curChunk := [];
      }
      assert GoodChunk(curChunkIdx) && GoodChunk(newChunkIdx);
      SameData(curChunkIdx, newChunkIdx);
      curChunkIdx := newChunkIdx;
      curChunkID := newChunk.id;
      curChunkOffset := newPos - newChunk.start;
      pos := newPos;
      return newPos, true;
    }

    lemma SameData(i: nat, j: nat)
      requires i < |chunks| && j < |chunks| && Covers(chunks, blob) && GoodChunk(i) && GoodChunk(j)
      ensures chunks[i].id == chunks[j].id ==> Slice(chunks, blob, i) == Slice(chunks, blob, j)
    {
    }

    /** Decode the current chunk; the store may fail. */
    method LoadChunk() returns (ok: bool)
      requires Valid()
      modifies this`curChunk, this`fails
      ensures Valid() && fails == old(fails) + if ok then 0 else 1
      ensures curChunkID == nullID ==> ok
      ensures if ok then curChunk == Slice(chunks, blob, curChunkIdx) && curChunk != [] else curChunk == old(curChunk)
    {
      assert chunks[curChunkIdx].size > 0;
      assert GoodChunk(curChunkIdx);
      if curChunkID == nullID {
        curChunk := nullData;
        return true;
      }
      ok := *;
      if ok {
        curChunk := store(curChunkID);
      } else {
        fails := fails + 1;
      }
    }

    /** Where a seek asks to go. */
    function Target(offset: Int64, whence: Whence): int
      reads this
    {
      match whence
      case SeekStart => offset
      case SeekCurrent => pos + offset
      case SeekEnd => length + offset
      case Invalid => -1
    }

    /** Positions from 0 to the length can be reached; a seek elsewhere fails and moves nothing. */
    method Seek(offset: Int64, whence: Whence) returns (r: nat, err: Error)
      requires Valid()
      modifies this
      ensures Valid() && r == pos && fails == old(fails)
      ensures err == Ok <==> 0 <= old(Target(offset, whence)) <= length
      ensures pos == if err == Ok then old(Target(offset, whence)) else old(pos)
      ensures curChunkIdx == old(curChunkIdx) ==> curChunk == old(curChunk)
    {
      hide Slice, Covers, GoodChunk, Source;
      Bounded();
      var newPos: Int64 := 0;
      match whence {
        case SeekStart => newPos := offset;
        case SeekCurrent => newPos := Add64(pos, offset);
        case SeekEnd => newPos := Add64(length, offset);
        case Invalid => return pos, Failed;
      }
      if newPos < 0 {
        return pos, Failed;
      }
      var ok: bool;
      r, ok := FindOffset(newPos);
      err := if !ok then Failed else if newPos > length then Eof else Ok;
    }

    lemma Bounded()
      requires Source()
      ensures length == |blob| < I63
    {
    }

    /**
     Fill the buffer from the position on. Without a failure of the store the read is full, or
     ends at the end of the blob; with one, the bytes delivered so far are still the right ones.
     */
    method Read(p: array<Byte>) returns (n: nat, err: Error)
      requires Valid()
      modifies this, p
      ensures Valid() && n <= p.Length && pos == old(pos) + n
      ensures Delivered(p[..], old(p[..]), blob, old(pos), n)
      ensures err == Ok ==> old(pos) < length && n == Min(p.Length, length - old(pos))
      ensures err == Eof <==> old(pos) == length
      ensures err == Failed ==> n < Min(p.Length, length - old(pos))
      ensures if err == Failed then fails > old(fails) else fails == old(fails)
    {
      hide Source, Slice, Covers, GoodChunk, Delivered;
      Bounded();
      DeliveredNone(p[..], blob, pos);
      n, err := 0, Ok;
      if pos == length {
        return 0, Eof;
      }
      while n < p.Length
        invariant Valid() && n <= p.Length && pos == old(pos) + n && err == Ok && fails == old(fails)
        invariant Delivered(p[..], old(p[..]), blob, old(pos), n)
        invariant pos == length ==> curChunk != []
        decreases p.Length - n
      {
        if |curChunk| == 0 {
          var ok := LoadChunk();
          if !ok {
            return n, Failed;
          }
        }
        RestIs();
        if |curChunk| - curChunkOffset == 0 && curChunkIdx == |chunks| - 1 {
          return;
        }
        ghost var was := p[..];
        var copied := CopyRest(p, n);
        DeliveredMore(was, p[..], old(p[..]), blob, old(pos), n, copied);
        n := n + copied;
      }
    }

    /** Copy what fits from the rest of the current chunk, and move on. */
    method CopyRest(p: array<Byte>, n: nat) returns (copied: nat)
      requires Valid() && curChunk != [] && pos < length && n < p.Length
      modifies this, p
      ensures Valid() && 0 < copied <= p.Length - n && pos == old(pos) + copied <= |blob| && fails == old(fails)
      ensures p[..] == old(p[..n]) + blob[old(pos)..pos] + old(p[n + copied..])
      ensures pos == length ==> curChunk != []
    {
      hide Source, Slice, Covers, GoodChunk;
      RestIs();
      var rest := curChunk[curChunkOffset..];
      copied := Min(p.Length - n, |rest|);
      CopyInto(p, n, rest[..copied]);
      assert rest[..copied] == blob[pos..pos + copied];
      var _, e := Seek(copied, SeekCurrent);
      LastChunk();
    }

    /** What is left of the current chunk. */
    lemma RestIs()
      requires Valid() && curChunk != []
      ensures length == |blob| < I63 && curChunkOffset <= |curChunk| && chunks[curChunkIdx].End() <= length
      ensures curChunk[curChunkOffset..] == blob[pos..chunks[curChunkIdx].End()]
      ensures chunks[curChunkIdx].End() == length <==> curChunkIdx == |chunks| - 1
    {
      Inside(chunks, blob, curChunkIdx);
      if curChunkIdx < |chunks| - 1 { InOrder(chunks, curChunkIdx, |chunks| - 1); }
    }

    lemma LastChunk()
      requires Valid()
      ensures pos == length ==> curChunkIdx == |chunks| - 1
    {
      Inside(chunks, blob, curChunkIdx);
      if curChunkIdx < |chunks| - 1 { InOrder(chunks, curChunkIdx, |chunks| - 1); }
    }
  }

  /** The buffer holds n bytes of the blob, and what it held before after them. */
  predicate Delivered(p: seq<Byte>, p0: seq<Byte>, blob: seq<Byte>, at: nat, n: nat) {
    |p| == |p0| && n <= |p| && at + n <= |blob| && p[..n] == blob[at..at + n] && p[n..] == p0[n..]
  }

  lemma DeliveredNone(p: seq<Byte>, blob: seq<Byte>, at: nat)
    requires at <= |blob|
    ensures Delivered(p, p, blob, at, 0)
  {
  }

  lemma DeliveredMore(p: seq<Byte>, p': seq<Byte>, p0: seq<Byte>, blob: seq<Byte>, at: nat, n: nat, k: nat)
    requires Delivered(p, p0, blob, at, n) && n + k <= |p| && at + n + k <= |blob|
    requires p' == p[..n] + blob[at + n..at + n + k] + p[n + k..]
    ensures Delivered(p', p0, blob, at, n + k)
  {
    assert blob[at..at + n] + blob[at + n..at + n + k] == blob[at..at + n + k];
    assert p'[n + k..] == p[n..][k..] == p0[n..][k..];
  }

  method CopyInto(p: array<Byte>, n: nat, b: seq<Byte>)
    requires n + |b| <= p.Length
    modifies p
    ensures p[..] == old(p[..n]) + b + old(p[n + |b|..])
  {
    for i := 0 to |b|
      invariant p[..] == old(p[..n]) + b[..i] + old(p[n + i..])
    {
      p[n + i] := b[i];
    }
  }
}
