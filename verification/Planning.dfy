/**
 Planning an extraction: the target index is broken into segments, each taken from the seed
 that can provide the most bytes at that point, or one chunk at a time where no seed has it.
 */
module Planning {
  import opened Chunking
  import opened SelfSeed
  import opened Prelude

  /** The longest run taken from a seed that cannot be reflinked. */
  const LIMIT := 100

  // ---------- runs of chunks ----------

  predicate FollowsAt(chunks: seq<IndexChunk>, i: nat)
    requires i < |chunks|
  {
    i > 0 ==> chunks[i].start == chunks[i - 1].End()
  }

  predicate Consecutive(chunks: seq<IndexChunk>) {
    forall i :: 0 <= i < |chunks| ==> FollowsAt(chunks, i)
  }

  predicate Positive(chunks: seq<IndexChunk>) {
    forall i :: 0 <= i < |chunks| ==> chunks[i].size > 0
  }

  /** IDs that occur in both lists stand for chunks of one size. */
  predicate SizesAgree(a: seq<IndexChunk>, b: seq<IndexChunk>) {
    forall i, j :: 0 <= i < |a| && 0 <= j < |b| && a[i].id == b[j].id ==> a[i].size == b[j].size
  }

  /** From the first byte to the last. */
  function Bytes(run: seq<IndexChunk>): int {
    if run == [] then 0 else run[|run| - 1].End() - run[0].start
  }

  predicate SameIds(a: seq<IndexChunk>, b: seq<IndexChunk>) {
    |a| == |b| && forall i :: 0 <= i < |a| ==> a[i].id == b[i].id
  }

  lemma {:induction false} SameIdsSameBytes(a: seq<IndexChunk>, b: seq<IndexChunk>)
    requires Consecutive(a) && Consecutive(b) && SizesAgree(a, b) && SameIds(a, b)
    ensures Bytes(a) == Bytes(b)
  {
    if |a| > 1 {
      var a', b' := a[..|a| - 1], b[..|b| - 1];
      Part(a, 0, |a| - 1);
      Part(b, 0, |b| - 1);
      SameIdsSameBytes(a', b');
      assert FollowsAt(a, |a| - 1) && FollowsAt(b, |b| - 1);
    }
  }

  lemma Part(a: seq<IndexChunk>, i: nat, j: nat)
    requires Consecutive(a) && i <= j <= |a|
    ensures Consecutive(a[i..j])
  {
    var s := a[i..j];
    forall k | 0 <= k < |s|
      ensures FollowsAt(s, k)
    {
      assert FollowsAt(a, i + k);
    }
  }

  /** Longer runs have more bytes. */
  lemma {:induction false} BytesGrow(a: seq<IndexChunk>, i: nat, j: nat, k: nat)
    requires Consecutive(a) && Positive(a) && i <= j <= k <= |a|
    ensures 0 <= Bytes(a[i..j]) <= Bytes(a[i..k])
    ensures j < k ==> Bytes(a[i..j]) < Bytes(a[i..k])
    decreases k
  {
    if i < k {
      if j < k { BytesGrow(a, i, j, k - 1); } else { BytesGrow(a, i, k - 1, k - 1); }
      assert FollowsAt(a, k - 1);
      assert a[i..k][..k - 1 - i] == a[i..k - 1];
      assert i < k - 1 ==> a[i..k - 1][|a[i..k - 1]| - 1] == a[k - 2];
    }
  }

  // ---------- what seeds can provide ----------

  /** What planning sees of a seed. */
  datatype SeedView =
    | NullView(id: ChunkID, canReflink: bool)
    | FileView(file: string, chunks: seq<IndexChunk>, canReflink: bool, invalid: bool)

  predicate HeldAt(chunks: seq<IndexChunk>, want: seq<IndexChunk>, p: nat, k: nat) {
    p + k <= |chunks| && k <= |want| && forall i :: 0 <= i < k ==> chunks[p + i].id == want[i].id
  }

  /** The seed can provide the first k chunks of `want` in one piece. */
  ghost predicate Provides(v: SeedView, want: seq<IndexChunk>, k: nat) {
    && 0 < k <= |want|
    && (v.canReflink || k <= LIMIT)
    && match v
       case NullView(id, _) => forall i :: 0 <= i < k ==> want[i].id == id
       case FileView(_, chunks, _, invalid) => !invalid && exists p: nat :: HeldAt(chunks, want, p, k)
  }

  /** A place to copy a segment from. */
  datatype Source =
    | NullSection(from: nat, to: nat)
    | FileSegment(file: string, chunks: seq<IndexChunk>, canReflink: bool)
  {
    function FileName(): string {
      if FileSegment? then file else ""
    }

    function Size(): int {
      match this
      case NullSection(from, to) => to - from
      case FileSegment(_, chunks, _) => Bytes(chunks)
    }
  }

  /** The source is the seed's own copy of the first n chunks of `want`. */
  ghost predicate From(v: SeedView, want: seq<IndexChunk>, n: nat, source: Source) {
    && Provides(v, want, n)
    && match v
       case NullView(_, _) => source == NullSection(want[0].start, want[n - 1].End())
       case FileView(file, chunks, canReflink, _) =>
         exists p: nat :: HeldAt(chunks, want, p, n) && source == FileSegment(file, chunks[p..p + n], canReflink)
  }

  /** n is the longest piece the seed can provide, 0 if it has none. */
  ghost predicate Longest(v: SeedView, want: seq<IndexChunk>, n: nat, source: Option<Source>) {
    && (forall k: nat :: Provides(v, want, k) ==> k <= n)
    && (n == 0 <==> source == None)
    && (n > 0 ==> From(v, want, n, source.value))
  }

  class FileSeed {
    const file: string
    const canReflink: bool
    var chunks: seq<IndexChunk>
    var pos: Positions
    var isInvalid: bool

    predicate Valid()
      reads this
    {
      pos == Record(chunks, map[], 0, |chunks|)
    }

    function View(): SeedView
      reads this
    {
      FileView(file, chunks, canReflink, isInvalid)
    }

    constructor (file: string, chunks: seq<IndexChunk>, canReflink: bool)
      ensures Valid() && View() == FileView(file, chunks, canReflink, false)
    {
      this.file, this.canReflink, this.chunks, isInvalid := file, canReflink, chunks, false;
      pos := map[];
      new;
      RecordAll();
    }

    method RecordAll()
      requires pos == map[]
      modifies this`pos
      ensures Valid()
    {
      for i := 0 to |chunks|
        invariant pos == Record(chunks, map[], 0, i)
      {
        var id := chunks[i].id;
        pos := pos[id := (if id in pos then pos[id] else []) + [i]];
      }
    }

    method SetInvalid(value: bool)
      modifies this`isInvalid
      ensures isInvalid == value
    {
      isInvalid := value;
    }

    /** Replace the index by one made from the file as it is now. */
    method RegenerateIndex(index: seq<IndexChunk>)
      modifies this
      ensures Valid() && View() == FileView(file, index, canReflink, false)
    {
      chunks := index;
      isInvalid := false;
      pos := map[];
      RecordAll();
    }

    /** The longest run of this seed from position p on that matches `want`; a limit of 0 is none. */
    method MaxMatchFrom(want: seq<IndexChunk>, p: nat, limit: nat) returns (match': seq<IndexChunk>)
      requires p <= |chunks|
      ensures p + |match'| <= |chunks| && match' == chunks[p..p + |match'|]
      ensures HeldAt(chunks, want, p, |match'|) && (limit == 0 || |match'| <= limit)
      ensures forall k: nat :: HeldAt(chunks, want, p, k) && (limit == 0 || k <= limit) ==> k <= |match'|
    {
      if |want| == 0 {
        return [];
      }
      var sp, dp := 0, p;
      while !(limit != 0 && sp == limit) && dp < |chunks| && sp < |want| && want[sp].id == chunks[dp].id
        invariant dp == p + sp && HeldAt(chunks, want, p, sp) && (limit == 0 || sp <= limit)
        decreases |want| - sp
      {
        dp, sp := dp + 1, sp + 1;
      }
      HeldBelow(chunks, want, p, sp);
      return chunks[p..dp];
    }

    /** The longest match from any of the given positions of the first wanted chunk. */
    method LongestFrom(want: seq<IndexChunk>, ps: seq<nat>) returns (best: seq<IndexChunk>, ghost at: nat)
      requires |want| > 0 && ps != [] && forall l :: 0 <= l < |ps| ==> ps[l] < |chunks| && chunks[ps[l]].id == want[0].id
      ensures HeldAt(chunks, want, at, |best|) && best == chunks[at..at + |best|] && |best| > 0
      ensures canReflink || |best| <= LIMIT
      ensures forall l :: 0 <= l < |ps| ==> BestFrom(chunks, want, canReflink, ps[l], |best|)
    {
      hide HeldAt, BestFrom;
      var limit := if canReflink then 0 else LIMIT;
      best, at := [], 0;
      EmptyHeld(chunks, want);
      var k := 0;
      while k < |ps|
        invariant k <= |ps| && (limit == 0 || |best| <= limit) && (k > 0 ==> |best| > 0)
        invariant HeldAt(chunks, want, at, |best|) && at + |best| <= |chunks| && best == chunks[at..at + |best|]
        invariant forall l :: 0 <= l < k ==> BestFrom(chunks, want, canReflink, ps[l], |best|)
        decreases |ps| - k
      {
        var m := MaxMatchFrom(want, ps[k], limit);
        LongerIsBetter(chunks, want, canReflink, ps[..k], |best|, ps[k], |m|);
        if |m| > |best| {
          best, at := m, ps[k];
        }
        k := k + 1;
        if limit != 0 && limit == |best| {
          LimitIsBest(chunks, want, ps, LIMIT);
          return;
        }
      }
    }

    method LongestMatchWith(want: seq<IndexChunk>) returns (n: nat, source: Option<Source>)
      requires Valid()
      ensures Longest(View(), want, n, source)
    {
      hide Record, BestFrom;
      if |want| == 0 || |chunks| == 0 || isInvalid {
        return 0, None;
      }
      var id := want[0].id;
      RecordedPositions(chunks, |chunks|, id);
      if id !in pos {
        AllTried(View(), want, [], 0);
        return 0, None;
      }
      var best, at := LongestFrom(want, pos[id]);
      AllTried(View(), want, pos[id], |best|);
      return |best|, Some(FileSegment(file, best, canReflink));
    }
  }

  /** No run that starts at p and respects the limit is longer than n. */
  ghost predicate BestFrom(chunks: seq<IndexChunk>, want: seq<IndexChunk>, canReflink: bool, p: nat, n: nat) {
    forall k: nat :: HeldAt(chunks, want, p, k) && (canReflink || k <= LIMIT) ==> k <= n
  }

  lemma EmptyHeld(chunks: seq<IndexChunk>, want: seq<IndexChunk>)
    ensures HeldAt(chunks, want, 0, 0)
  {
  }

  lemma LimitIsBest(chunks: seq<IndexChunk>, want: seq<IndexChunk>, ps: seq<nat>, n: nat)
    requires n >= LIMIT
    ensures forall l :: 0 <= l < |ps| ==> BestFrom(chunks, want, false, ps[l], n)
  {
  }

  lemma LongerIsBetter(chunks: seq<IndexChunk>, want: seq<IndexChunk>, canReflink: bool, ps: seq<nat>, n: nat, p: nat, m: nat)
    requires |want| > 0 && p < |chunks| && chunks[p].id == want[0].id
    requires forall l :: 0 <= l < |ps| ==> BestFrom(chunks, want, canReflink, ps[l], n)
    requires forall k: nat :: HeldAt(chunks, want, p, k) && (canReflink || k <= LIMIT) ==> k <= m
    ensures m > 0 && BestFrom(chunks, want, canReflink, p, SelfSeed.Max(m, n))
    ensures forall l :: 0 <= l < |ps| ==> BestFrom(chunks, want, canReflink, ps[l], SelfSeed.Max(m, n))
  {
    assert HeldAt(chunks, want, p, 1);
  }

  lemma HeldBelow(chunks: seq<IndexChunk>, want: seq<IndexChunk>, p: nat, n: nat)
    ensures HeldAt(chunks, want, p, n + 1) || forall k: nat :: HeldAt(chunks, want, p, k) ==> k <= n
  {
  }

  /** Runs can only start where the first wanted chunk is. */
  lemma AllTried(v: SeedView, want: seq<IndexChunk>, ps: seq<nat>, n: nat)
    requires v.FileView? && |want| > 0
    requires forall i :: 0 <= i < |v.chunks| && v.chunks[i].id == want[0].id ==> i in ps
    requires forall l :: 0 <= l < |ps| ==> BestFrom(v.chunks, want, v.canReflink, ps[l], n)
    ensures forall k: nat :: Provides(v, want, k) ==> k <= n
  {
    forall k: nat | Provides(v, want, k)
      ensures k <= n
    {
      var p: nat :| HeldAt(v.chunks, want, p, k);
      assert v.chunks[p + 0].id == want[0].id;
    }
  }

  /** nullChunkSeed.LongestMatchWith. */
  method LongestNullMatch(id: ChunkID, canReflink: bool, want: seq<IndexChunk>) returns (n: nat, source: Option<Source>)
    ensures Longest(NullView(id, canReflink), want, n, source)
  {
    n, source := 0, None;
    var limit := if canReflink then 0 else LIMIT;
    while n < |want| && !(limit != 0 && limit == n) && want[n].id == id
      invariant n <= |want| && (limit == 0 || n <= limit)
      invariant forall i :: 0 <= i < n ==> want[i].id == id
      decreases |want| - n
    {
      n := n + 1;
    }
    if n > 0 {
      source := Some(NullSection(want[0].start, want[n - 1].End()));
    }
  }
}
