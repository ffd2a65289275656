/**
 What content-defined chunking means: where a single stream is cut, and the list of
 chunks that results. The boundary test on a window of bytes and the digest are parameters.
 */
module Chunking {
  type Byte = x: int | 0 <= x < 256
  type ChunkID = seq<Byte>

  const WINDOW := 48

  function Min(a: int, b: int): int {
    if a < b then a else b
  }

  /** n zero bytes. */
  function ZeroBytes(n: nat): (z: seq<Byte>)
    ensures |z| == n && forall i :: 0 <= i < n ==> z[i] == 0
  {
    seq(n, _ => 0)
  }

  // ---------- cut points ----------

  /** Chunk sizes and the test that tells whether a full window ends at a boundary. */
  datatype Params = Params(min: nat, max: nat, test: seq<Byte> -> bool) {
    /** What NewChunker accepts, with min strictly below max. */
    predicate Valid() {
      WINDOW <= min < max
    }
  }

  /** The window of bytes that ends at offset k passes the boundary test. */
  predicate BoundaryAt(p: Params, data: seq<Byte>, k: nat)
    requires p.Valid() && WINDOW <= k <= |data|
  {
    p.test(data[k - WINDOW..k])
  }

  /** First size in k..m-1 whose window is a boundary, else m. */
  function FirstCut(p: Params, data: seq<Byte>, at: nat, k: nat, m: nat): (n: nat)
    requires p.Valid() && p.min < k <= m && at + m <= |data|
    ensures k <= n <= m
    ensures forall j :: at + k <= j < at + n ==> !BoundaryAt(p, data, j)
    ensures n < m ==> BoundaryAt(p, data, at + n)
    decreases m - k
  {
    if k == m || BoundaryAt(p, data, at + k) then k else FirstCut(p, data, at, k + 1, m)
  }

  /** The size of the chunk that starts at `at`. */
  function Cut(p: Params, data: seq<Byte>, at: nat): (n: nat)
    requires p.Valid() && at <= |data|
    ensures n <= p.max && at + n <= |data|
    ensures at < |data| ==> n > 0
  {
    var remaining := |data| - at;
    if remaining <= p.min then remaining
    else FirstCut(p, data, at, p.min + 1, Min(remaining, p.max))
  }

  /** Cuts depend only on the bytes ahead, so a stream may be chunked from any of its cuts. */
  lemma {:induction false} FirstCutShift(p: Params, data: seq<Byte>, at: nat, k: nat, m: nat)
    requires p.Valid() && p.min < k <= m && at + m <= |data|
    ensures FirstCut(p, data, at, k, m) == FirstCut(p, data[at..], 0, k, m)
    decreases m - k
  {
    if k < m {
      var s := data[at..];
      assert data[at + k - WINDOW..at + k] == s[k - WINDOW..k];
      FirstCutShift(p, data, at, k + 1, m);
    }
  }

  lemma CutShift(p: Params, data: seq<Byte>, at: nat)
    requires p.Valid() && at <= |data|
    ensures Cut(p, data, at) == Cut(p, data[at..], 0)
  {
    if |data| - at > p.min {
      FirstCutShift(p, data, at, p.min + 1, Min(|data| - at, p.max));
    }
  }

  // ---------- chunk lists ----------

  datatype IndexChunk = IndexChunk(id: ChunkID, start: nat, size: nat) {
    function End(): nat { start + size }
  }

  /** A stream together with the chunking parameters and the digest. */
  datatype Stream = Stream(p: Params, data: seq<Byte>, digest: seq<Byte> -> ChunkID) {
    predicate Valid() { p.Valid() }

    function ChunkAt(at: nat): (c: IndexChunk)
      requires Valid() && at < |data|
      ensures c.start == at && 0 < c.size <= p.max && c.End() <= |data|
    {
      var n := Cut(p, data, at);
      IndexChunk(digest(data[at..at + n]), at, n)
    }

    /** Every chunk a single chunker emits from `at` to the end of the stream. */
    function Chunks(at: nat): seq<IndexChunk>
      requires Valid() && at <= |data|
      decreases |data| - at
    {
      if at == |data| then [] else [ChunkAt(at)] + Chunks(ChunkAt(at).End())
    }

    /** `s` is a gap-free run of single-stream chunks that begins at `from`. */
    ghost predicate IsRun(s: seq<IndexChunk>, from: nat)
      requires Valid()
    {
      && from <= |data|
      && forall i :: 0 <= i < |s| ==>
           RunEnd(s[..i], from) < |data| && s[i] == ChunkAt(RunEnd(s[..i], from))
    }

    lemma RunEndInside(s: seq<IndexChunk>, from: nat)
      requires Valid() && IsRun(s, from)
      ensures RunEnd(s, from) <= |data|
    {
    }

    lemma RunSnoc(s: seq<IndexChunk>, from: nat, c: IndexChunk)
      requires Valid() && IsRun(s, from)
      requires RunEnd(s, from) < |data| && c == ChunkAt(RunEnd(s, from))
      ensures IsRun(s + [c], from) && RunEnd(s + [c], from) == c.End()
    {
      forall i | 0 <= i < |s + [c]|
        ensures RunEnd((s + [c])[..i], from) < |data| && (s + [c])[i] == ChunkAt(RunEnd((s + [c])[..i], from))
      {
        assert (s + [c])[..i] == s[..i];
        if i == |s| { assert s[..i] == s; }
      }
    }

    lemma RunTail(s: seq<IndexChunk>, from: nat)
      requires Valid() && IsRun(s, from) && |s| > 0
      ensures from < |data| && s[0] == ChunkAt(from)
      ensures IsRun(s[1..], s[0].End()) && RunEnd(s[1..], s[0].End()) == RunEnd(s, from)
    {
      assert s[..0] == [];
      forall i | 0 <= i < |s[1..]|
        ensures RunEnd(s[1..][..i], s[0].End()) < |data|
             && s[1..][i] == ChunkAt(RunEnd(s[1..][..i], s[0].End()))
      {
        assert s[1..][i] == s[i + 1];
        assert RunEnd(s[1..][..i], s[0].End()) == RunEnd(s[..i + 1], from);
      }
    }

    /** A run is followed by exactly what a fresh chunker yields from its end. */
    lemma {:induction false} RunIsPrefix(s: seq<IndexChunk>, from: nat)
      requires Valid() && IsRun(s, from)
      ensures RunEnd(s, from) <= |data|
      ensures Chunks(from) == s + Chunks(RunEnd(s, from))
      decreases |s|
    {
      hide IsRun, ChunkAt;
      RunEndInside(s, from);
      if |s| > 0 {
        RunTail(s, from);
        RunIsPrefix(s[1..], s[0].End());
        var rest := Chunks(RunEnd(s, from));
        SeqCons(s, rest);
      }
    }

    lemma SeqCons(s: seq<IndexChunk>, rest: seq<IndexChunk>)
      requires |s| > 0
      ensures [s[0]] + (s[1..] + rest) == s + rest
    {
    }

    /** Two chunkers that share one cut emit the same chunks from there on. */
    lemma SharedCut(s: seq<IndexChunk>, from: nat, s': seq<IndexChunk>, from': nat)
      requires Valid() && IsRun(s, from) && IsRun(s', from')
      requires RunEnd(s, from) == RunEnd(s', from')
      ensures |s| <= |Chunks(from)| && |s'| <= |Chunks(from')|
      ensures Chunks(from)[|s|..] == Chunks(from')[|s'|..]
    {
      RunIsPrefix(s, from);
      RunIsPrefix(s', from');
    }

    /** The whole chunk list is itself a run, and its last chunk ends the stream. */
    lemma {:induction false} ChunksAreRun(at: nat)
      requires Valid() && at <= |data|
      ensures IsRun(Chunks(at), at) && RunEnd(Chunks(at), at) == |data|
      decreases |data| - at
    {
      if at < |data| {
        var c := ChunkAt(at);
        var t := Chunks(c.End());
        ChunksAreRun(c.End());
        var s := [c] + t;
        forall i | 0 <= i < |s|
          ensures RunEnd(s[..i], at) < |data| && s[i] == ChunkAt(RunEnd(s[..i], at))
        {
          if i > 0 {
            assert s[i] == t[i - 1];
            assert RunEnd(s[..i], at) == RunEnd(t[..i - 1], c.End());
          }
        }
      }
    }

    // ---------- runs of zero bytes ----------

    predicate Zeros(a: nat, b: nat)
    {
      a <= b <= |data| && forall i :: a <= i < b ==> data[i] == 0
    }

    lemma ZeroSlice(a: nat)
      requires Zeros(a, a + p.max)
      ensures data[a..a + p.max] == ZeroBytes(p.max)
    {
    }

    /** If max zero bytes were once not cut early, they never are: all their windows hash alike. */
    lemma NullCut(q: nat, at: nat)
      requires Valid() && Zeros(q, q + p.max) && Cut(p, data, q) == p.max
      requires Zeros(at, at + p.max)
      ensures Cut(p, data, at) == p.max
    {
      var n := Cut(p, data, at);
      if n < p.max {
        NullWindow(q, at, n);
      }
    }

    lemma NullWindow(q: nat, at: nat, n: nat)
      requires Valid() && p.min < n < p.max
      requires Zeros(q, q + p.max) && Zeros(at, at + p.max)
      ensures BoundaryAt(p, data, at + n) == BoundaryAt(p, data, q + n)
    {
      var a, b := at + n, q + n;
      assert data[a - WINDOW..a] == data[b - WINDOW..b];
    }
  }

  /** Where a run that began at `from` has got to. */
  function RunEnd(s: seq<IndexChunk>, from: nat): nat {
    if |s| == 0 then from else s[|s| - 1].End()
  }
}
