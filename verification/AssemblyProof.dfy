/**
 Assembly is correct in every interleaving: if no worker failed and every segment was
 processed, the target equals the indexed blob.
 */
module AssemblyProof {
  import opened Chunking
  import opened SelfSeed
  import opened Assembly

  // ---------- chunks and segments do not overlap ----------

  lemma {:induction false} ChunkOrder(P: Plan, c: nat, d: nat)
    requires P.Valid() && c < d <= |P.chunks|
    ensures P.chunks[c].End() <= P.EndOf(d) <= |P.blob|
    decreases d
  {
    assert P.GoodChunk(d - 1);
    if c < d - 1 { ChunkOrder(P, c, d - 1); }
  }

  lemma Disjoint(P: Plan, c: nat, d: nat, k: nat, l: nat)
    requires P.Valid() && c < |P.chunks| && d < |P.chunks| && k < P.chunks[c].size && l < P.chunks[d].size
    requires P.chunks[c].start + k == P.chunks[d].start + l
    ensures c == d && k == l
  {
    assert P.GoodChunk(c) && P.GoodChunk(d);
    if c < d { ChunkOrder(P, c, d); } else if d < c { ChunkOrder(P, d, c); }
  }

  predicate InSeg(P: Plan, j: nat, c: nat) {
    j < |P.segs| && c < |P.chunks| && P.segs[j].first <= c <= P.segs[j].last
  }

  lemma SegOfChunk(P: Plan, i: nat, j: nat, c: nat)
    requires P.Valid() && InSeg(P, i, c) && InSeg(P, j, c)
    ensures i == j
  {
    if i < j { SegOrder(P, i, j); } else if j < i { SegOrder(P, j, i); }
  }

  lemma SegOrder(P: Plan, i: nat, j: nat)
    requires P.Valid() && i < j < |P.segs|
    ensures P.segs[i].last < P.segs[j].first
  {
    TileHere(P.segs, |P.chunks|, j);
    if i + 1 < j { StartsGrow(P.segs, |P.chunks|, i + 1, j); }
  }

  // ---------- correct chunks ----------

  /** Byte k of chunk c is that of the blob. */
  predicate ByteOk(P: Plan, file: seq<Byte>, c: nat, k: nat)
    requires |file| == |P.blob| && c < |P.chunks|
  {
    P.chunks[c].start + k < |P.blob| && file[P.chunks[c].start + k] == P.blob[P.chunks[c].start + k]
  }

  ghost predicate ChunkOk(P: Plan, file: seq<Byte>, c: nat)
    requires |file| == |P.blob| && c < |P.chunks|
  {
    forall k: nat :: k < P.chunks[c].size ==> ByteOk(P, file, c, k)
  }

  ghost predicate RangeOk(P: Plan, file: seq<Byte>, a: nat, b: nat)
    requires |file| == |P.blob|
  {
    forall c: nat :: a <= c < b && c < |P.chunks| ==> ChunkOk(P, file, c)
  }

  lemma ChunkOkSlice(P: Plan, file: seq<Byte>, c: nat)
    requires P.Valid() && |file| == |P.blob| && c < |P.chunks|
    ensures ChunkOk(P, file, c) <==> P.Slice(file, c) == P.Slice(P.blob, c)
  {
    assert P.GoodChunk(c);
    var s, n := P.chunks[c].start, P.chunks[c].size;
    var a, b := file[s..s + n], P.blob[s..s + n];
    if a == b {
      forall k: nat | k < n
        ensures ByteOk(P, file, c, k)
      {
        assert a[k] == b[k];
      }
    }
    if ChunkOk(P, file, c) {
      forall k: nat | k < n
        ensures a[k] == b[k]
      {
        assert ByteOk(P, file, c, k);
      }
    }
  }

  /** A matching digest means the right bytes. */
  lemma DigestTells(P: Plan, file: seq<Byte>, c: nat)
    requires P.Valid() && |file| == |P.blob| && c < |P.chunks|
    ensures P.IdMatches(file, c) ==> ChunkOk(P, file, c)
  {
    assert P.GoodChunk(c);
    ChunkOkSlice(P, file, c);
  }

  /** Writing into one chunk leaves every other chunk as it was. */
  lemma WriteElsewhere(P: Plan, file: seq<Byte>, c: nat, k: nat, b: Byte, d: nat)
    requires P.Valid() && |file| == |P.blob| && c < |P.chunks| && k < P.chunks[c].size && d < |P.chunks| && c != d
    requires P.chunks[c].start + k < |file|
    ensures ChunkOk(P, file, d) ==> ChunkOk(P, file[P.chunks[c].start + k := b], d)
  {
    var file' := file[P.chunks[c].start + k := b];
    if ChunkOk(P, file, d) {
      forall l: nat | l < P.chunks[d].size
        ensures ByteOk(P, file', d, l)
      {
        assert ByteOk(P, file, d, l);
        if P.chunks[c].start + k == P.chunks[d].start + l { Disjoint(P, c, d, k, l); }
      }
    }
  }

  // ---------- the invariant ----------

  predicate Holds(pc: Pc, j: nat) { !pc.Idle? && pc.j == j }

  /** The chunk lies in a segment that is finished. */
  ghost predicate InDone(P: Plan, s: State, c: nat) {
    exists j :: j in s.done && InSeg(P, j, c)
  }

  /** What a worker has established about its own segment. */
  ghost predicate PcOk(P: Plan, s: State, pc: Pc)
    requires |s.file| == |P.blob|
  {
    match pc
    case Idle => true
    case Writing(j) => true
    case Adding(j) => j < |P.segs| && RangeOk(P, s.file, P.segs[j].first, P.segs[j].last + 1)
    case Copying(j, c, src, left) =>
      && AtChunk(P, s.file, j, c) && src < |P.chunks| && InDone(P, s, src)
      && P.chunks[src].id == P.chunks[c].id && P.chunks[src].size == P.chunks[c].size
      && PartOk(P, s.file, c, left)
    case Storing(j, c, left) =>
      AtChunk(P, s.file, j, c) && |P.store(P.chunks[c].id)| == P.chunks[c].size && PartOk(P, s.file, c, left)
    case _ => AtChunk(P, s.file, pc.j, pc.c)
  }

  /** The chunks of segment j before c are in place. */
  ghost predicate AtChunk(P: Plan, file: seq<Byte>, j: nat, c: nat)
    requires |file| == |P.blob|
  {
    InSeg(P, j, c) && RangeOk(P, file, P.segs[j].first, c)
  }

  ghost predicate PartOk(P: Plan, file: seq<Byte>, c: nat, left: set<nat>)
    requires |file| == |P.blob| && c < |P.chunks|
  {
    && (forall k :: k in left ==> k < P.chunks[c].size)
    && (forall k: nat :: k < P.chunks[c].size && k !in left ==> ByteOk(P, file, c, k))
  }

  ghost predicate DoneOk(P: Plan, s: State)
    requires |s.file| == |P.blob|
  {
    forall j :: j in s.done ==> j < |P.segs| && RangeOk(P, s.file, P.segs[j].first, P.segs[j].last + 1)
  }

  /** Every segment handed out is held by exactly one worker or done, unless a worker failed. */
  ghost predicate Ownership(P: Plan, s: State) {
    && s.next <= |P.segs|
    && (forall w :: 0 <= w < |s.ws| && !s.ws[w].Idle? ==> s.ws[w].j < s.next && s.ws[w].j !in s.done)
    && (forall v, w :: 0 <= v < w < |s.ws| && !s.ws[v].Idle? && !s.ws[w].Idle? ==> s.ws[v].j != s.ws[w].j)
    && (forall j :: j in s.done ==> j < s.next)
    && (!s.failed ==> forall j :: 0 <= j < s.next ==> j in s.done || exists w :: 0 <= w < |s.ws| && Holds(s.ws[w], j))
  }

  ghost predicate Inv(P: Plan, s: State) {
    && |s.file| == |P.blob| && Ownership(P, s) && DoneOk(P, s)
    && (forall w :: 0 <= w < |s.ws| ==> PcOk(P, s, s.ws[w]))
    && (exists m: nat :: Settled(P.chunks, P.segs, s.done, m, s.seed))
  }

  // ---------- writes ----------

  /** A write into chunk c of segment j keeps what the others established. */
  lemma RangeKept(P: Plan, file: seq<Byte>, c: nat, k: nat, b: Byte, a: nat, z: nat)
    requires P.Valid() && |file| == |P.blob| && c < |P.chunks| && k < P.chunks[c].size && P.chunks[c].start + k < |file|
    requires !(a <= c < z) && RangeOk(P, file, a, z)
    ensures RangeOk(P, file[P.chunks[c].start + k := b], a, z)
  {
    hide ChunkOk;
    var file' := file[P.chunks[c].start + k := b];
    forall d: nat | a <= d < z && d < |P.chunks|
      ensures ChunkOk(P, file', d)
    {
      WriteElsewhere(P, file, c, k, b, d);
    }
  }

  lemma PartKept(P: Plan, file: seq<Byte>, c: nat, k: nat, b: Byte, d: nat, left: set<nat>)
    requires P.Valid() && |file| == |P.blob| && c < |P.chunks| && k < P.chunks[c].size && P.chunks[c].start + k < |file|
    requires d < |P.chunks| && c != d && PartOk(P, file, d, left)
    ensures PartOk(P, file[P.chunks[c].start + k := b], d, left)
  {
    forall l: nat | l < P.chunks[d].size && l !in left
      ensures ByteOk(P, file[P.chunks[c].start + k := b], d, l)
    {
      assert ByteOk(P, file, d, l);
      if P.chunks[c].start + k == P.chunks[d].start + l { Disjoint(P, c, d, k, l); }
    }
  }

  lemma OtherKept(P: Plan, s: State, j: nat, c: nat, k: nat, b: Byte, pc: Pc)
    requires P.Valid() && |s.file| == |P.blob| && InSeg(P, j, c) && k < P.chunks[c].size && P.chunks[c].start + k < |s.file|
    requires PcOk(P, s, pc) && (pc.Idle? || pc.j != j)
    ensures PcOk(P, s.(file := s.file[P.chunks[c].start + k := b]), pc)
  {
    hide RangeOk, PartOk, Plan.Valid;
    var s' := s.(file := s.file[P.chunks[c].start + k := b]);
    match pc
    case Idle =>
    case Writing(_) =>
    case Adding(i) =>
      OutOfSeg(P, j, c, i, P.segs[i].first, P.segs[i].last + 1);
      RangeKept(P, s.file, c, k, b, P.segs[i].first, P.segs[i].last + 1);
    case Copying(i, d, src, left) =>
      OutOfSeg(P, j, c, i, P.segs[i].first, d + 1);
      RangeKept(P, s.file, c, k, b, P.segs[i].first, d);
      PartKept(P, s.file, c, k, b, d, left);
      var l :| l in s.done && InSeg(P, l, src);
      assert InDone(P, s', src);
    case Storing(i, d, left) =>
      OutOfSeg(P, j, c, i, P.segs[i].first, d + 1);
      RangeKept(P, s.file, c, k, b, P.segs[i].first, d);
      PartKept(P, s.file, c, k, b, d, left);
    case _ =>
      OutOfSeg(P, j, c, pc.j, P.segs[pc.j].first, pc.c + 1);
      RangeKept(P, s.file, c, k, b, P.segs[pc.j].first, pc.c);
  }

  lemma OutOfSeg(P: Plan, j: nat, c: nat, i: nat, a: nat, z: nat)
    requires P.Valid() && InSeg(P, j, c) && i < |P.segs| && i != j && a == P.segs[i].first && z <= P.segs[i].last + 1
    ensures !(a <= c < z)
  {
    if a <= c < z { SegOfChunk(P, i, j, c); }
  }

  lemma DoneKept(P: Plan, s: State, j: nat, c: nat, k: nat, b: Byte)
    requires P.Valid() && |s.file| == |P.blob| && InSeg(P, j, c) && k < P.chunks[c].size && P.chunks[c].start + k < |s.file|
    requires DoneOk(P, s) && j !in s.done
    ensures DoneOk(P, s.(file := s.file[P.chunks[c].start + k := b]))
  {
    hide RangeOk, Plan.Valid;
    forall i | i in s.done
      ensures RangeOk(P, s.file[P.chunks[c].start + k := b], P.segs[i].first, P.segs[i].last + 1)
    {
      OutOfSeg(P, j, c, i, P.segs[i].first, P.segs[i].last + 1);
      RangeKept(P, s.file, c, k, b, P.segs[i].first, P.segs[i].last + 1);
    }
  }

  // ---------- steps that keep the segment ----------

  lemma OwnershipSame(P: Plan, s: State, w: nat, pc': Pc, file': seq<Byte>)
    requires Ownership(P, s) && w < |s.ws| && !s.ws[w].Idle? && Holds(pc', s.ws[w].j)
    ensures Ownership(P, s.(ws := s.ws[w := pc'], file := file'))
  {
    var s' := s.(ws := s.ws[w := pc'], file := file');
    if !s.failed {
      forall j: nat | j < s'.next
        ensures j in s'.done || exists v :: 0 <= v < |s'.ws| && Holds(s'.ws[v], j)
      {
        if j !in s.done {
          var v :| 0 <= v < |s.ws| && Holds(s.ws[v], j);
          assert Holds(s'.ws[v], j);
        }
      }
    }
  }

  /** A step of worker w that writes at most one byte, into its own segment. */
  lemma StepKeeps(P: Plan, s: State, w: nat, pc': Pc, file': seq<Byte>)
    requires P.Valid() && Inv(P, s) && w < |s.ws| && !s.ws[w].Idle? && Holds(pc', s.ws[w].j)
    requires |file'| == |P.blob| && PcOk(P, s.(file := file'), pc')
    requires DoneOk(P, s.(file := file'))
    requires forall v :: 0 <= v < |s.ws| && v != w ==> PcOk(P, s.(file := file'), s.ws[v])
    ensures Inv(P, s.(ws := s.ws[w := pc'], file := file'))
  {
    var s', t := s.(ws := s.ws[w := pc'], file := file'), s.(file := file');
    hide Ownership, PcOk, DoneOk, Settled, Plan.Valid;
    OwnershipSame(P, s, w, pc', file');
    DoneOnlyFile(P, t, s');
    forall v | 0 <= v < |s'.ws|
      ensures PcOk(P, s', s'.ws[v])
    {
      PcOnlyFile(P, t, s', s'.ws[v]);
    }
    var m: nat :| Settled(P.chunks, P.segs, s.done, m, s.seed);
    assert Settled(P.chunks, P.segs, s'.done, m, s'.seed);
  }

  lemma PcOnlyFile(P: Plan, s: State, s': State, pc: Pc)
    requires |s.file| == |P.blob| && s'.file == s.file && s.done <= s'.done && PcOk(P, s, pc)
    ensures PcOk(P, s', pc)
  {
    hide RangeOk, PartOk;
    if pc.Copying? {
      var j :| j in s.done && InSeg(P, j, pc.src);
      assert InDone(P, s', pc.src);
    }
  }

  lemma DoneOnlyFile(P: Plan, s: State, s': State)
    requires |s.file| == |P.blob| && s'.file == s.file && s.done == s'.done && DoneOk(P, s)
    ensures DoneOk(P, s')
  {
    hide RangeOk;
  }

  lemma WriteKeeps(P: Plan, s: State, w: nat, pc': Pc, c: nat, k: nat, b: Byte)
    requires P.Valid() && Inv(P, s) && w < |s.ws| && !s.ws[w].Idle? && Holds(pc', s.ws[w].j)
    requires InSeg(P, pc'.j, c) && k < P.chunks[c].size && P.chunks[c].start + k < |s.file|
    requires PcOk(P, s.(file := s.file[P.chunks[c].start + k := b]), pc')
    ensures Inv(P, s.(ws := s.ws[w := pc'], file := s.file[P.chunks[c].start + k := b]))
  {
    hide PcOk, DoneOk, Settled, Plan.Valid;
    var j, file' := pc'.j, s.file[P.chunks[c].start + k := b];
    DoneKept(P, s, j, c, k, b);
    forall v | 0 <= v < |s.ws| && v != w
      ensures PcOk(P, s.(file := file'), s.ws[v])
    {
      OtherKept(P, s, j, c, k, b, s.ws[v]);
    }
    StepKeeps(P, s, w, pc', file');
  }

  lemma MoveKeeps(P: Plan, s: State, w: nat, pc': Pc)
    requires P.Valid() && Inv(P, s) && w < |s.ws| && !s.ws[w].Idle? && Holds(pc', s.ws[w].j)
    requires PcOk(P, s, pc')
    ensures Inv(P, s.(ws := s.ws[w := pc']))
  {
    hide PcOk, DoneOk, Settled, Plan.Valid, Ownership;
    assert s.(file := s.file) == s;
    StepKeeps(P, s, w, pc', s.file);
    assert s.(ws := s.ws[w := pc'], file := s.file) == s.(ws := s.ws[w := pc']);
  }

  /** A worker that returns an error. */
  lemma GiveUpKeeps(P: Plan, s: State, w: nat)
    requires P.Valid() && Inv(P, s) && w < |s.ws|
    ensures Inv(P, s.(ws := s.ws[w := Idle], failed := true))
  {
    hide Settled, Plan.Valid, RangeOk, PartOk;
    var s' := s.(ws := s.ws[w := Idle], failed := true);
    forall v | 0 <= v < |s'.ws|
      ensures PcOk(P, s', s'.ws[v])
    {
      if v != w { PcOnlyFile(P, s, s', s.ws[v]); }
    }
    var m: nat :| Settled(P.chunks, P.segs, s.done, m, s.seed);
    assert Settled(P.chunks, P.segs, s'.done, m, s'.seed);
  }

  // ---------- taking and recording a segment ----------

  lemma TakeKeeps(P: Plan, s: State, w: nat)
    requires P.Valid() && Inv(P, s) && P.Enabled(s, Take(w))
    ensures Inv(P, P.Apply(s, Take(w)))
  {
    hide Settled, RangeOk, PartOk;
    var s' := P.Apply(s, Take(w));
    TakeOwnership(P, s, w, s'.ws[w]);
    hide Ownership;
    forall v | 0 <= v < |s'.ws|
      ensures PcOk(P, s', s'.ws[v])
    {
      if v != w { PcOnlyFile(P, s, s', s.ws[v]); } else { TileHere(P.segs, |P.chunks|, s.next); EmptyRange(P, s.file, P.segs[s.next].first); }
    }
    DoneOnlyFile(P, s, s');
    var m: nat :| Settled(P.chunks, P.segs, s.done, m, s.seed);
    assert Settled(P.chunks, P.segs, s'.done, m, s'.seed);
  }

  lemma EmptyRange(P: Plan, file: seq<Byte>, a: nat)
    requires |file| == |P.blob|
    ensures RangeOk(P, file, a, a)
  {
  }

  lemma TakeOwnership(P: Plan, s: State, w: nat, pc: Pc)
    requires Ownership(P, s) && w < |s.ws| && s.ws[w].Idle? && s.next < |P.segs| && Holds(pc, s.next)
    ensures Ownership(P, s.(ws := s.ws[w := pc], next := s.next + 1))
  {
    var s' := s.(ws := s.ws[w := pc], next := s.next + 1);
    if !s.failed {
      forall j: nat | j < s'.next
        ensures j in s'.done || exists v :: 0 <= v < |s'.ws| && Holds(s'.ws[v], j)
      {
        if j == s.next { assert Holds(s'.ws[w], j); }
        else if j !in s.done {
          var v :| 0 <= v < |s.ws| && Holds(s.ws[v], j);
          assert Holds(s'.ws[v], j);
        }
      }
    }
  }

  lemma AddOwnership(P: Plan, s: State, w: nat, seed: Fields)
    requires Ownership(P, s) && w < |s.ws| && !s.ws[w].Idle?
    ensures Ownership(P, s.(ws := s.ws[w := Idle], done := s.done + {s.ws[w].j}, seed := seed))
  {
    var s' := s.(ws := s.ws[w := Idle], done := s.done + {s.ws[w].j}, seed := seed);
    if !s.failed {
      forall j: nat | j < s'.next
        ensures j in s'.done || exists v :: 0 <= v < |s'.ws| && Holds(s'.ws[v], j)
      {
        if j !in s'.done {
          var v :| 0 <= v < |s.ws| && Holds(s.ws[v], j);
          assert Holds(s'.ws[v], j);
        }
      }
    }
  }

  lemma AddKeeps(P: Plan, s: State, w: nat)
    requires P.Valid() && Inv(P, s) && P.Enabled(s, Add(w))
    ensures Inv(P, P.Apply(s, Add(w)))
  {
    hide Settled, RangeOk, PartOk, Added;
    var s', j := P.Apply(s, Add(w)), s.ws[w].j;
    AddOwnership(P, s, w, s'.seed);
    var m: nat :| Settled(P.chunks, P.segs, s.done, m, s.seed);
    assert j !in s.done && PcOk(P, s, s.ws[w]);
    var m' := AddSettles(P.chunks, P.segs, s.done, m, s.seed, j);
    assert DoneOk(P, s');
    hide Ownership, DoneOk;
    forall v | 0 <= v < |s'.ws|
      ensures PcOk(P, s', s'.ws[v])
    {
      if v != w { PcOnlyFile(P, s, s', s.ws[v]); }
    }
  }

  // ---------- the chunk-level steps ----------

  lemma AfterOk(P: Plan, s: State, j: nat, c: nat)
    requires P.Valid() && |s.file| == |P.blob| && AtChunk(P, s.file, j, c) && ChunkOk(P, s.file, c)
    ensures PcOk(P, s, P.AfterChunk(j, c)) && Holds(P.AfterChunk(j, c), j)
  {
    hide ChunkOk, Plan.GoodChunk;
    assert RangeOk(P, s.file, P.segs[j].first, c + 1);
    TileHere(P.segs, |P.chunks|, j);
  }

  lemma {:induction false} SegExists(P: Plan, m: nat, c: nat) returns (i: nat)
    requires P.Valid() && m <= |P.segs| && c < StartOf(P.segs, m)
    ensures i < m && InSeg(P, i, c)
    decreases m
  {
    hide Plan.GoodChunk;
    TileHere(P.segs, |P.chunks|, m - 1);
    if P.segs[m - 1].first <= c { i := m - 1; } else { i := SegExists(P, m - 1, c); }
  }

  /** What the self-seed offers lies in a finished segment and has the wanted ID. */
  lemma SeedOffers(P: Plan, s: State, id: ChunkID)
    requires P.Valid() && Inv(P, s) && id in s.seed.pos
    ensures s.seed.pos[id] != [] && s.seed.pos[id][0] < |P.chunks|
    ensures P.chunks[s.seed.pos[id][0]].id == id && InDone(P, s, s.seed.pos[id][0])
  {
    hide Ownership, DoneOk, PcOk, Record, CacheIs, Plan.GoodChunk;
    var m: nat :| Settled(P.chunks, P.segs, s.done, m, s.seed);
    RecordedPositions(P.chunks, s.seed.written, id);
    var i := SegExists(P, m, s.seed.pos[id][0]);
    assert i in s.done;
  }

  lemma SameBytes(P: Plan, src: nat, c: nat, k: nat)
    requires P.Valid() && src < |P.chunks| && c < |P.chunks| && P.chunks[src].id == P.chunks[c].id
    requires P.chunks[src].size == P.chunks[c].size && k < P.chunks[c].size
    ensures P.chunks[src].start + k < |P.blob| && P.chunks[c].start + k < |P.blob|
    ensures P.blob[P.chunks[src].start + k] == P.blob[P.chunks[c].start + k]
  {
    assert P.GoodChunk(src) && P.GoodChunk(c);
    assert P.Slice(P.blob, src) == P.Slice(P.blob, c);
    assert P.Slice(P.blob, src)[k] == P.Slice(P.blob, c)[k];
  }

  lemma StoreBytes(P: Plan, c: nat, k: nat)
    requires P.Valid() && c < |P.chunks| && k < P.chunks[c].size
    ensures |P.store(P.chunks[c].id)| == P.chunks[c].size && P.chunks[c].start + k < |P.blob|
    ensures P.store(P.chunks[c].id)[k] == P.blob[P.chunks[c].start + k]
  {
    assert P.GoodChunk(c);
    assert P.store(P.chunks[c].id) == P.Slice(P.blob, c);
  }

  /** Writing the right byte k of chunk c. */
  lemma PartGrows(P: Plan, file: seq<Byte>, c: nat, k: nat, left: set<nat>)
    requires P.Valid() && |file| == |P.blob| && c < |P.chunks| && PartOk(P, file, c, left) && k in left
    requires P.chunks[c].start + k < |P.blob|
    ensures PartOk(P, file[P.chunks[c].start + k := P.blob[P.chunks[c].start + k]], c, left - {k})
  {
    var file' := file[P.chunks[c].start + k := P.blob[P.chunks[c].start + k]];
    forall l: nat | l < P.chunks[c].size && l !in left - {k}
      ensures ByteOk(P, file', c, l)
    {
      if l != k { assert ByteOk(P, file, c, l); }
    }
  }

  lemma CopyKeeps(P: Plan, s: State, w: nat, k: nat)
    requires P.Valid() && Inv(P, s) && P.Enabled(s, CopyByte(w, k))
    ensures Inv(P, P.Apply(s, CopyByte(w, k)))
  {
    hide Ownership, Settled, Plan.Valid, RangeOk, PartOk;
    var pc := s.ws[w];
    assert PcOk(P, s, pc);
    LeftInside(P, s.file, pc.c, pc.left, k);
    SameBytes(P, pc.src, pc.c, k);
    SourceOk(P, s, pc.src, k);
    var b := P.blob[P.chunks[pc.c].start + k];
    PartGrows(P, s.file, pc.c, k, pc.left);
    RangeKept(P, s.file, pc.c, k, b, P.segs[pc.j].first, pc.c);
    var s1 := s.(file := s.file[P.chunks[pc.c].start + k := b]);
    assert InDone(P, s1, pc.src) by { var j :| j in s.done && InSeg(P, j, pc.src); }
    hide Inv;
    WriteKeeps(P, s, w, Copying(pc.j, pc.c, pc.src, pc.left - {k}), pc.c, k, b);
  }

  lemma LeftInside(P: Plan, file: seq<Byte>, c: nat, left: set<nat>, k: nat)
    requires |file| == |P.blob| && c < |P.chunks| && PartOk(P, file, c, left) && k in left
    ensures k < P.chunks[c].size
  {
  }

  lemma SourceOk(P: Plan, s: State, src: nat, k: nat)
    requires |s.file| == |P.blob| && DoneOk(P, s) && src < |P.chunks| && InDone(P, s, src) && k < P.chunks[src].size
    ensures P.chunks[src].start + k < |P.blob| && s.file[P.chunks[src].start + k] == P.blob[P.chunks[src].start + k]
  {
    var j :| j in s.done && InSeg(P, j, src);
    assert ChunkOk(P, s.file, src);
    assert ByteOk(P, s.file, src, k);
  }

  lemma StoreKeeps(P: Plan, s: State, w: nat, k: nat)
    requires P.Valid() && Inv(P, s) && P.Enabled(s, StoreByte(w, k))
    ensures Inv(P, P.Apply(s, StoreByte(w, k)))
  {
    hide Ownership, Settled, Plan.Valid, RangeOk, PartOk;
    var pc := s.ws[w];
    assert PcOk(P, s, pc);
    LeftInside(P, s.file, pc.c, pc.left, k);
    StoreBytes(P, pc.c, k);
    var b := P.blob[P.chunks[pc.c].start + k];
    PartGrows(P, s.file, pc.c, k, pc.left);
    RangeKept(P, s.file, pc.c, k, b, P.segs[pc.j].first, pc.c);
    hide Inv;
    WriteKeeps(P, s, w, Storing(pc.j, pc.c, pc.left - {k}), pc.c, k, b);
  }

  lemma CheckKeeps(P: Plan, s: State, a: Action)
    requires P.Valid() && Inv(P, s) && P.Enabled(s, a) && (a.Check? || a.TryInPlace?)
    ensures Inv(P, P.Apply(s, a))
  {
    hide Ownership, Settled, Plan.Valid, RangeOk, PartOk, DoneOk;
    var pc := s.ws[a.w];
    assert PcOk(P, s, pc);
    DigestTells(P, s.file, pc.c);
    hide Inv;
    if P.IdMatches(s.file, pc.c) && (a.Check? || !P.blank) {
      AfterOk(P, s, pc.j, pc.c);
      MoveKeeps(P, s, a.w, P.AfterChunk(pc.j, pc.c));
    } else if a.Check? && !P.regenerate {
      GiveUpKeeps(P, s, a.w);
    } else {
      MoveKeeps(P, s, a.w, P.NextPc(s, a));
    }
  }

  lemma AllLeft(P: Plan, file: seq<Byte>, c: nat)
    requires |file| == |P.blob| && c < |P.chunks|
    ensures PartOk(P, file, c, P.All(c))
  {
  }

  lemma LookUpKeeps(P: Plan, s: State, a: Action)
    requires P.Valid() && Inv(P, s) && P.Enabled(s, a) && (a.LookUp? || a.Get?)
    ensures Inv(P, P.Apply(s, a))
  {
    hide Ownership, Settled, Plan.Valid, RangeOk, PartOk, DoneOk, Plan.All;
    var pc := s.ws[a.w];
    assert PcOk(P, s, pc);
    var id := P.chunks[pc.c].id;
    AllLeft(P, s.file, pc.c);
    if a.LookUp? && id in s.seed.pos { SeedOffers(P, s, id); }
    hide Inv;
    if P.NextPc(s, a).Idle? {
      GiveUpKeeps(P, s, a.w);
    } else {
      MoveKeeps(P, s, a.w, P.NextPc(s, a));
    }
  }

  lemma DoneChunkKeeps(P: Plan, s: State, w: nat)
    requires P.Valid() && Inv(P, s) && P.Enabled(s, ChunkDone(w))
    ensures Inv(P, P.Apply(s, ChunkDone(w)))
  {
    hide Ownership, Settled, Plan.Valid, RangeOk, DoneOk;
    var pc := s.ws[w];
    assert PcOk(P, s, pc);
    assert ChunkOk(P, s.file, pc.c);
    hide Inv, PartOk, ChunkOk;
    AfterOk(P, s, pc.j, pc.c);
    MoveKeeps(P, s, w, P.AfterChunk(pc.j, pc.c));
  }

  lemma ScribbleKeeps(P: Plan, s: State, a: Action)
    requires P.Valid() && Inv(P, s) && P.Enabled(s, a) && a.Scribble?
    ensures Inv(P, P.Apply(s, a))
  {
    hide RangeOk, PartOk, DoneOk, Ownership, Settled, Plan.Valid;
    var pc := s.ws[a.w];
    var file' := s.file[P.chunks[a.c].start + a.k := a.b];
    assert P.Apply(s, a) == s.(ws := s.ws[a.w := pc], file := file');
    assert PcOk(P, s.(file := file'), pc);
    hide Inv, PcOk, Plan.Apply;
    WriteKeeps(P, s, a.w, pc, a.c, a.k, a.b);
  }

  lemma WriteDoneKeeps(P: Plan, s: State, a: Action)
    requires P.Valid() && Inv(P, s) && P.Enabled(s, a) && a.WriteDone?
    ensures Inv(P, P.Apply(s, a))
  {
    hide RangeOk, PartOk, DoneOk, Ownership, Settled, Plan.GoodChunk;
    var pc := s.ws[a.w];
    TileHere(P.segs, |P.chunks|, pc.j);
    EmptyRange(P, s.file, P.segs[pc.j].first);
    hide Inv;
    MoveKeeps(P, s, a.w, Checking(pc.j, P.segs[pc.j].first));
  }

  // ---------- every run ----------

  lemma ActionKeeps(P: Plan, s: State, a: Action)
    requires P.Valid() && Inv(P, s) && P.Enabled(s, a)
    ensures Inv(P, P.Apply(s, a))
  {
    match a
    case Take(w) => hide *; TakeKeeps(P, s, w);
    case Add(w) => hide *; AddKeeps(P, s, w);
    case CopyByte(w, k) => hide *; CopyKeeps(P, s, w, k);
    case StoreByte(w, k) => hide *; StoreKeeps(P, s, w, k);
    case ChunkDone(w) => hide *; DoneChunkKeeps(P, s, w);
    case Scribble(_, _, _, _) => hide *; ScribbleKeeps(P, s, a);
    case WriteDone(_) => hide *; WriteDoneKeeps(P, s, a);
    case Check(_) => hide *; CheckKeeps(P, s, a);
    case TryInPlace(_) => hide *; CheckKeeps(P, s, a);
    case LookUp(_) => hide *; LookUpKeeps(P, s, a);
    case Get(_) => hide *; LookUpKeeps(P, s, a);
    case Fail(w) => hide Inv; GiveUpKeeps(P, s, w);
  }

  lemma {:induction false} RunKeeps(P: Plan, s: State, acts: seq<Action>, s': State)
    requires P.Valid() && Inv(P, s) && P.Reaches(s, acts, s')
    ensures Inv(P, s')
    decreases |acts|
  {
    hide Inv, Plan.Valid, Plan.Enabled, Plan.Apply;
    if acts != [] {
      ActionKeeps(P, s, acts[0]);
      RunKeeps(P, P.Apply(s, acts[0]), acts[1..], s');
    }
  }

  lemma InitialInv(P: Plan, s: State)
    requires P.Valid() && P.Initial(s)
    ensures Inv(P, s)
  {
    assert Settled(P.chunks, P.segs, {}, 0, s.seed);
  }

  lemma {:induction false} PrefixOk(P: Plan, file: seq<Byte>, c: nat)
    requires P.Valid() && |file| == |P.blob| && c <= |P.chunks| && RangeOk(P, file, 0, |P.chunks|)
    ensures P.EndOf(c) <= |P.blob| && file[..P.EndOf(c)] == P.blob[..P.EndOf(c)]
    decreases c
  {
    if c > 0 {
      PrefixOk(P, file, c - 1);
      assert P.GoodChunk(c - 1);
      ChunkOkSlice(P, file, c - 1);
      assert ChunkOk(P, file, c - 1);
      hide RangeOk, ChunkOk;
      var a, z := P.EndOf(c - 1), P.EndOf(c);
      assert file[..z] == file[..a] + file[a..z] && P.blob[..z] == P.blob[..a] + P.blob[a..z];
    }
  }

  /**
   In every interleaving: when all segments were handed out, all workers are idle and none
   returned an error, the target equals the blob, whatever it held before and whatever the
   seeds delivered.
   */
  lemma {:induction false} AssemblyCorrect(P: Plan, s: State, acts: seq<Action>, s': State)
    requires P.Valid() && P.Initial(s) && P.Reaches(s, acts, s')
    requires !s'.failed && s'.next == |P.segs| && forall w :: 0 <= w < |s'.ws| ==> s'.ws[w].Idle?
    ensures s'.file == P.blob
  {
    InitialInv(P, s);
    RunKeeps(P, s, acts, s');
    hide Settled, ChunkOk, Plan.GoodChunk;
    forall c: nat | c < |P.chunks|
      ensures ChunkOk(P, s'.file, c)
    {
      var i := SegExists(P, |P.segs|, c);
      assert i in s'.done;
    }
    PrefixOk(P, s'.file, |P.chunks|);
    assert s'.file[..|P.blob|] == s'.file && P.blob[..|P.blob|] == P.blob;
  }
}
