/**
 A blob and an index of it: consecutive chunks of positive size that cover the blob, and
 the bisection that finds the chunk at an offset.
 */
module IndexedBlob {
  import opened Chunking
  import opened Planning

  predicate Covers(chunks: seq<IndexChunk>, blob: seq<Byte>) {
    && Consecutive(chunks) && Positive(chunks) && chunks != []
    && chunks[0].start == 0 && chunks[|chunks| - 1].End() == |blob|
  }

  /** Later chunks start where or after earlier ones end. */
  lemma {:induction false} InOrder(chunks: seq<IndexChunk>, i: nat, j: nat)
    requires Consecutive(chunks) && Positive(chunks) && i < j < |chunks|
    ensures chunks[i].End() <= chunks[j].start
    decreases j
  {
    assert FollowsAt(chunks, j);
    if i < j - 1 { InOrder(chunks, i, j - 1); }
  }

  lemma Inside(chunks: seq<IndexChunk>, blob: seq<Byte>, i: nat)
    requires Covers(chunks, blob) && i < |chunks|
    ensures chunks[i].End() <= |blob|
  {
    if i < |chunks| - 1 { InOrder(chunks, i, |chunks| - 1); }
  }

  function Slice(chunks: seq<IndexChunk>, blob: seq<Byte>, i: nat): (b: seq<Byte>)
    requires Covers(chunks, blob) && i < |chunks|
    ensures |b| == chunks[i].size
  {
    Inside(chunks, blob, i);
    blob[chunks[i].start..chunks[i].End()]
  }

  /** sort.Search for the first chunk that ends beyond pos. */
  method SearchEnd(chunks: seq<IndexChunk>, pos: int) returns (k: nat)
    requires Consecutive(chunks) && Positive(chunks)
    ensures k <= |chunks|
    ensures forall i :: 0 <= i < k ==> chunks[i].End() <= pos
    ensures forall i :: k <= i < |chunks| ==> pos < chunks[i].End()
  {
    hide Consecutive, Positive;
    var lo, hi := 0, |chunks|;
    while lo < hi
      invariant 0 <= lo <= hi <= |chunks|
      invariant forall i :: 0 <= i < lo ==> chunks[i].End() <= pos
      invariant forall i :: hi <= i < |chunks| ==> pos < chunks[i].End()
    {
      var mid := (lo + hi) / 2;
      forall i | 0 <= i < |chunks|
        ensures i < mid ==> chunks[i].End() <= chunks[mid].start
        ensures mid < i ==> chunks[mid].End() <= chunks[i].start
      {
        if i < mid { InOrder(chunks, i, mid); }
        if mid < i { InOrder(chunks, mid, i); }
      }
      if pos < chunks[mid].End() {
        hi := mid;
      } else {
        lo := mid + 1;
      }
    }
    k := lo;
  }

  /** The chunk found by bisection is the one that holds pos. */
  lemma FoundHolds(chunks: seq<IndexChunk>, blob: seq<Byte>, pos: nat, k: nat)
    requires Covers(chunks, blob) && k <= |chunks|
    requires forall i :: 0 <= i < k ==> chunks[i].End() <= pos
    requires forall i :: k <= i < |chunks| ==> pos < chunks[i].End()
    ensures k < |chunks| <==> pos < |blob|
    ensures k < |chunks| ==> chunks[k].start <= pos < chunks[k].End()
  {
    if k < |chunks| { assert FollowsAt(chunks, k); }
  }
}
