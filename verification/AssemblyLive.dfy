/**
 Assembly succeeds: workers fail only by an error from outside or a seed that delivered wrong
 data where that is not to be repaired, and every run without one can be brought to its end.
 */
module AssemblyLive {
  import opened Chunking
  import opened SelfSeed
  import opened Assembly
  import opened AssemblyProof

  // ---------- why a worker fails ----------

  /** After a seed was written, a chunk of it is wrong, and that is not to be repaired. */
  predicate FoundMismatch(P: Plan, s: State, a: Action) {
    a.Check? && !P.regenerate && a.w < |s.ws| && s.ws[a.w].Checking? && s.ws[a.w].c < |P.chunks| && !P.IdMatches(s.file, s.ws[a.w].c)
  }

  /** Chunks with one ID have one size, and the store has that many bytes for it. */
  lemma SizesAgree(P: Plan, c: nat, d: nat)
    requires P.Valid() && c < |P.chunks| && d < |P.chunks|
    ensures P.chunks[c].id == P.chunks[d].id ==> P.chunks[c].size == P.chunks[d].size
    ensures |P.store(P.chunks[c].id)| == P.chunks[c].size
  {
    assert P.GoodChunk(c) && P.GoodChunk(d);
    ChunkOrder(P, c, c + 1);
    ChunkOrder(P, d, d + 1);
    assert P.store(P.chunks[c].id) == P.Slice(P.blob, c);
  }

  lemma StepFails(P: Plan, s: State, a: Action)
    requires P.Valid() && Inv(P, s) && !s.failed && P.Enabled(s, a)
    ensures P.Apply(s, a).failed ==> a.Fail? || FoundMismatch(P, s, a)
  {
    hide Inv, Plan.Valid, Plan.IdMatches, Added;
    var pc := s.ws[a.w];
    if a.LookUp? && P.chunks[pc.c].id in s.seed.pos {
      SeedOffers(P, s, P.chunks[pc.c].id);
      SizesAgree(P, pc.c, s.seed.pos[P.chunks[pc.c].id][0]);
    }
    if a.Get? { SizesAgree(P, pc.c, pc.c); }
  }

  /** The step that made a run fail, and the state it was taken in. */
  ghost predicate FailedAt(P: Plan, s: State, acts: seq<Action>, k: nat, mid: State) {
    k < |acts| && P.Reaches(s, acts[..k], mid) && (acts[k].Fail? || FoundMismatch(P, mid, acts[k]))
  }

  /** A run fails only if a worker met an error from outside, or found a seed's data wrong and was not to repair it. */
  lemma {:induction false} FailureHasCause(P: Plan, s: State, acts: seq<Action>, s': State) returns (k: nat, mid: State)
    requires P.Valid() && Inv(P, s) && !s.failed && P.Reaches(s, acts, s') && s'.failed
    ensures FailedAt(P, s, acts, k, mid)
    decreases |acts|
  {
    hide Inv, Plan.Valid, Plan.Enabled, Plan.Apply, FoundMismatch;
    var a, s1 := acts[0], P.Apply(s, acts[0]);
    StepFails(P, s, a);
    if s1.failed {
      k, mid := 0, s;
      assert acts[..0] == [];
    } else {
      ActionKeeps(P, s, a);
      k, mid := FailureHasCause(P, s1, acts[1..], s');
      k := k + 1;
      assert acts[..k] == [a] + acts[1..][..k - 1] && acts[..k][1..] == acts[1..][..k - 1];
    }
  }

  lemma {:induction false} RunFailsOnlyIf(P: Plan, s: State, acts: seq<Action>, s': State)
    requires P.Valid() && P.Initial(s) && P.Reaches(s, acts, s')
    ensures s'.failed ==> exists k: nat, mid :: FailedAt(P, s, acts, k, mid)
  {
    InitialInv(P, s);
    hide Inv, Plan.Valid, Plan.Reaches, FailedAt;
    if s'.failed {
      var k, mid := FailureHasCause(P, s, acts, s');
    }
  }

  // ---------- progress of one worker ----------

  /** Nothing is taken from seeds, or what they deliver is repaired. */
  predicate Repairs(P: Plan) {
    P.regenerate || forall j :: 0 <= j < |P.sourced| ==> !P.sourced[j]
  }

  /** Only segments with a source are written from it and checked. */
  predicate OnlySourced(P: Plan, s: State) {
    forall w :: 0 <= w < |s.ws| && (s.ws[w].Writing? || s.ws[w].Checking?) ==> s.ws[w].j < |P.sourced| && P.sourced[s.ws[w].j]
  }

  lemma OnlySourcedStep(P: Plan, s: State, a: Action)
    requires |P.sourced| == |P.segs| && OnlySourced(P, s) && P.Enabled(s, a)
    ensures OnlySourced(P, P.Apply(s, a))
  {
    hide Plan.IdMatches, Added, Plan.All;
  }

  lemma {:induction false} OnlySourcedRun(P: Plan, s: State, acts: seq<Action>, s': State)
    requires |P.sourced| == |P.segs| && OnlySourced(P, s) && P.Reaches(s, acts, s')
    ensures OnlySourced(P, s')
    decreases |acts|
  {
    hide OnlySourced, Plan.Enabled, Plan.Apply;
    if acts != [] {
      OnlySourcedStep(P, s, acts[0]);
      OnlySourcedRun(P, P.Apply(s, acts[0]), acts[1..], s');
    }
  }

  ghost predicate Live(P: Plan, s: State) {
    Inv(P, s) && OnlySourced(P, s) && !s.failed
  }

  predicate WithoutFailure(acts: seq<Action>) {
    forall k :: 0 <= k < |acts| ==> !acts[k].Fail?
  }

  /** A run without failures from one live state to another. */
  ghost predicate Leads(P: Plan, s: State, acts: seq<Action>, s': State) {
    P.Reaches(s, acts, s') && WithoutFailure(acts) && Live(P, s') && |s'.ws| == |s.ws|
  }

  lemma Nothing(P: Plan, s: State)
    requires Live(P, s)
    ensures Leads(P, s, [], s)
  {
  }

  lemma OneStep(P: Plan, s: State, a: Action)
    requires P.Valid() && Repairs(P) && Live(P, s) && P.Enabled(s, a) && !a.Fail?
    ensures Leads(P, s, [a], P.Apply(s, a))
  {
    hide Inv, Plan.Valid, Plan.Apply, Plan.Enabled;
    ActionKeeps(P, s, a);
    HasSources(P);
    OnlySourcedStep(P, s, a);
    StepFails(P, s, a);
    NoMismatch(P, s, a);
    SameWorkers(P, s, a);
    assert [a][1..] == [];
    assert P.Reaches(P.Apply(s, a), [], P.Apply(s, a));
  }

  lemma NoMismatch(P: Plan, s: State, a: Action)
    requires Repairs(P) && OnlySourced(P, s)
    ensures !FoundMismatch(P, s, a)
  {
  }

  lemma HasSources(P: Plan)
    requires P.Valid()
    ensures |P.sourced| == |P.segs|
  {
  }

  lemma SameWorkers(P: Plan, s: State, a: Action)
    requires P.Enabled(s, a)
    ensures |P.Apply(s, a).ws| == |s.ws|
  {
  }

  lemma {:induction false} RunsJoin(P: Plan, s: State, a: seq<Action>, s': State, b: seq<Action>, s'': State)
    requires P.Reaches(s, a, s') && P.Reaches(s', b, s'')
    ensures P.Reaches(s, a + b, s'')
    decreases |a|
  {
    hide Plan.Enabled, Plan.Apply;
    if a == [] {
      assert a + b == b;
    } else {
      RunsJoin(P, P.Apply(s, a[0]), a[1..], s', b, s'');
      assert (a + b)[1..] == a[1..] + b;
    }
  }

  lemma Then(P: Plan, s: State, a: seq<Action>, s': State, b: seq<Action>, s'': State)
    requires Leads(P, s, a, s') && Leads(P, s', b, s'')
    ensures Leads(P, s, a + b, s'')
  {
    hide Live, Plan.Reaches;
    RunsJoin(P, s, a, s', b, s'');
  }

  /** The chunks of its segment a worker has before it, the one it is at included. */
  function Ahead(P: Plan, pc: Pc): nat {
    if pc.Idle? || pc.Adding? || pc.j >= |P.segs| then 0
    else if pc.Writing? then P.segs[pc.j].last + 2
    else if pc.c <= P.segs[pc.j].last then P.segs[pc.j].last + 1 - pc.c else 0
  }

  /** How far it is with that chunk. */
  function Phase(pc: Pc): nat {
    match pc
    case Idle => 0
    case Writing(_) => 6
    case Checking(_, _) => 5
    case InPlace(_, _) => 4
    case Lookup(_, _) => 3
    case Fetch(_, _) => 2
    case Copying(_, _, _, _) => 1
    case Storing(_, _, _) => 1
    case Adding(_) => 1
  }

  function BytesLeft(pc: Pc): nat {
    if pc.Copying? || pc.Storing? then |pc.left| else 0
  }

  predicate Closer(P: Plan, pc': Pc, pc: Pc) {
    || Ahead(P, pc') < Ahead(P, pc)
    || (Ahead(P, pc') == Ahead(P, pc) && (Phase(pc') < Phase(pc) || (Phase(pc') == Phase(pc) && BytesLeft(pc') < BytesLeft(pc))))
  }

  /** What holds of a busy worker. */
  lemma Busy(P: Plan, s: State, w: nat)
    requires P.Valid() && Inv(P, s) && w < |s.ws| && !s.ws[w].Idle?
    ensures P.PcInside(s.ws[w]) && |s.file| == |P.blob|
    ensures P.segs[s.ws[w].j].first <= P.segs[s.ws[w].j].last < |P.chunks|
    ensures !s.ws[w].Writing? && !s.ws[w].Adding? ==> P.segs[s.ws[w].j].first <= s.ws[w].c <= P.segs[s.ws[w].j].last
  {
    hide RangeOk, PartOk, DoneOk, Settled, Plan.GoodChunk;
    var pc := s.ws[w];
    assert PcOk(P, s, pc);
    TileHere(P.segs, |P.chunks|, pc.j);
  }

  /** A byte still to be written lies inside the file, and so does its source. */
  lemma ByteInside(P: Plan, s: State, w: nat, k: nat)
    requires P.Valid() && Inv(P, s) && w < |s.ws| && (s.ws[w].Copying? || s.ws[w].Storing?) && k in s.ws[w].left
    ensures |s.file| == |P.blob| && s.ws[w].c < |P.chunks|
    ensures k < P.chunks[s.ws[w].c].size && P.chunks[s.ws[w].c].start + k < |P.blob|
    ensures s.ws[w].Copying? ==> s.ws[w].src < |P.chunks| && P.chunks[s.ws[w].src].start + k < |P.blob|
    ensures s.ws[w].Storing? ==> k < |P.store(P.chunks[s.ws[w].c].id)|
  {
    hide RangeOk, DoneOk, Settled, Ownership, Plan.Valid;
    var pc := s.ws[w];
    assert PcOk(P, s, pc);
    ChunkInside(P, pc.c);
    if pc.Copying? { ChunkInside(P, pc.src); }
  }

  lemma ChunkInside(P: Plan, c: nat)
    requires P.Valid() && c < |P.chunks|
    ensures P.chunks[c].End() <= |P.blob|
  {
    assert P.GoodChunk(c);
  }

  lemma SeedReady(P: Plan, s: State, id: ChunkID)
    requires P.Valid() && Inv(P, s)
    ensures CacheInside(s.seed.cache, |P.chunks|)
    ensures id in s.seed.pos ==> s.seed.pos[id] != []
  {
    hide Ownership, DoneOk, PcOk, Record, Plan.GoodChunk, CacheIs, Tiles;
    var m: nat :| Settled(P.chunks, P.segs, s.done, m, s.seed);
    CacheBounded(P.segs, |P.chunks|, s.done, m, s.seed.cache);
    if id in s.seed.pos { SeedOffers(P, s, id); }
  }

  lemma NextByte(P: Plan, s: State, w: nat) returns (a: Action)
    requires P.Valid() && Inv(P, s) && w < |s.ws| && (s.ws[w].Copying? || s.ws[w].Storing?)
    ensures P.Enabled(s, a) && a.w == w && (a.ChunkDone? || a.CopyByte? || a.StoreByte?)
  {
    var pc := s.ws[w];
    Busy(P, s, w);
    HasSources(P);
    hide Inv, Plan.Valid;
    a := ChunkDone(w);
    if pc.left != {} {
      var k: nat :| k in pc.left;
      ByteInside(P, s, w, k);
      a := if pc.Copying? then CopyByte(w, k) else StoreByte(w, k);
    }
  }

  /** The step a busy worker takes if nothing goes wrong. */
  lemma NextAction(P: Plan, s: State, w: nat) returns (a: Action)
    requires P.Valid() && Inv(P, s) && w < |s.ws| && !s.ws[w].Idle?
    ensures P.Enabled(s, a) && a.w == w && !a.Fail? && !a.Take? && !a.Scribble?
    ensures s.ws[w].Adding? <==> a.Add?
  {
    var pc := s.ws[w];
    Busy(P, s, w);
    HasSources(P);
    hide Inv, Plan.Valid;
    match pc {
      case Writing(_) => a := WriteDone(w);
      case Checking(_, _) => a := Check(w);
      case InPlace(_, _) => a := TryInPlace(w);
      case Lookup(_, c) =>
        SeedReady(P, s, P.chunks[c].id);
        a := LookUp(w);
      case Fetch(_, _) => a := Get(w);
      case Copying(_, _, _, left) => a := NextByte(P, s, w);
      case Storing(_, _, left) => a := NextByte(P, s, w);
      case Adding(_) =>
        SeedReady(P, s, []);
        a := Add(w);
    }
  }

  /** That step brings it closer to the end of its segment. */
  lemma StepCloser(P: Plan, s: State, a: Action)
    requires P.Valid() && Inv(P, s) && P.Enabled(s, a) && !a.Fail? && !a.Take? && !a.Scribble? && !a.Add? && !s.failed
    requires !P.Apply(s, a).failed && !s.ws[a.w].Idle?
    ensures Closer(P, P.NextPc(s, a), s.ws[a.w]) && !P.NextPc(s, a).Idle?
  {
    Busy(P, s, a.w);
    hide Inv, Plan.Valid;
    if a.CopyByte? || a.StoreByte? { ByteCloser(P, s, a); } else { ChunkCloser(P, s, a); }
  }

  lemma ByteCloser(P: Plan, s: State, a: Action)
    requires P.Enabled(s, a) && (a.CopyByte? || a.StoreByte?)
    ensures Closer(P, P.NextPc(s, a), s.ws[a.w]) && !P.NextPc(s, a).Idle?
  {
    hide Plan.IdMatches, Plan.All, Plan.Apply;
    var pc := s.ws[a.w];
    assert |pc.left - {a.k}| < |pc.left|;
  }

  lemma ChunkCloser(P: Plan, s: State, a: Action)
    requires P.Enabled(s, a) && !a.Fail? && !a.Take? && !a.Scribble? && !a.Add? && !a.CopyByte? && !a.StoreByte?
    requires !P.Apply(s, a).failed && !s.ws[a.w].Idle? && s.ws[a.w].j < |P.segs|
    requires P.segs[s.ws[a.w].j].first <= P.segs[s.ws[a.w].j].last
    requires !s.ws[a.w].Writing? && !s.ws[a.w].Adding? ==> P.segs[s.ws[a.w].j].first <= s.ws[a.w].c <= P.segs[s.ws[a.w].j].last
    ensures Closer(P, P.NextPc(s, a), s.ws[a.w]) && !P.NextPc(s, a).Idle?
  {
    hide Plan.IdMatches, Plan.All;
  }

  predicate OnlyMoves(s: State, s': State, w: nat) {
    |s'.ws| == |s.ws| && s'.next == s.next && forall v :: 0 <= v < |s.ws| && v != w ==> s'.ws[v] == s.ws[v]
  }

  lemma MovesOnly(P: Plan, s: State, a: Action)
    requires P.Enabled(s, a) && !a.Take?
    ensures OnlyMoves(s, P.Apply(s, a), a.w) && P.Apply(s, a).ws[a.w] == P.NextPc(s, a)
  {
  }

  /** A busy worker gets through its segment. */
  lemma {:induction false} FinishSegment(P: Plan, s: State, w: nat) returns (acts: seq<Action>, s': State)
    requires P.Valid() && Repairs(P) && Live(P, s) && w < |s.ws|
    ensures Leads(P, s, acts, s') && OnlyMoves(s, s', w) && s'.ws[w].Idle?
    decreases Ahead(P, s.ws[w]), Phase(s.ws[w]), BytesLeft(s.ws[w])
  {
    hide Inv, Plan.Valid, Plan.Apply, Plan.NextPc, Plan.Enabled, Plan.Reaches, Repairs, Ahead, OnlySourced;
    if s.ws[w].Idle? {
      Nothing(P, s);
      return [], s;
    }
    var a := NextAction(P, s, w);
    OneStep(P, s, a);
    MovesOnly(P, s, a);
    var s1 := P.Apply(s, a);
    if a.Add? {
      AddIsIdle(P, s, a);
      return [a], s1;
    }
    StepCloser(P, s, a);
    var more;
    more, s' := FinishSegment(P, s1, w);
    Then(P, s, [a], s1, more, s');
    acts := [a] + more;
  }

  lemma AddIsIdle(P: Plan, s: State, a: Action)
    requires P.Enabled(s, a) && a.Add?
    ensures P.NextPc(s, a).Idle?
  {
  }

  // ---------- all workers, all segments ----------

  predicate Idle(s: State, n: nat) {
    forall w :: 0 <= w < n && w < |s.ws| ==> s.ws[w].Idle?
  }

  lemma {:induction false} FinishWorkers(P: Plan, s: State, n: nat) returns (acts: seq<Action>, s': State)
    requires P.Valid() && Repairs(P) && Live(P, s) && n <= |s.ws|
    ensures Leads(P, s, acts, s') && s'.next == s.next && Idle(s', n)
    decreases n
  {
    hide Live, Plan.Valid, Plan.Reaches, Repairs;
    if n == 0 {
      Nothing(P, s);
      return [], s;
    }
    var acts1, s1 := FinishWorkers(P, s, n - 1);
    var acts2;
    acts2, s' := FinishSegment(P, s1, n - 1);
    Then(P, s, acts1, s1, acts2, s');
    acts := acts1 + acts2;
  }

  /** One worker takes and finishes whatever has not been handed out. */
  lemma {:induction false} FinishSegments(P: Plan, s: State) returns (acts: seq<Action>, s': State)
    requires P.Valid() && Repairs(P) && Live(P, s) && |s.ws| > 0 && Idle(s, |s.ws|) && s.next <= |P.segs|
    ensures Leads(P, s, acts, s') && s'.next == |P.segs| && Idle(s', |s'.ws|)
    decreases |P.segs| - s.next
  {
    hide Live, Plan.Valid, Plan.Reaches, Repairs;
    if s.next == |P.segs| {
      Nothing(P, s);
      return [], s;
    }
    CanTake(P, s);
    OneStep(P, s, Take(0));
    var s1 := P.Apply(s, Take(0));
    hide Plan.Apply, Plan.Enabled;
    var acts1, s2 := FinishSegment(P, s1, 0);
    Then(P, s, [Take(0)], s1, acts1, s2);
    var more;
    more, s' := FinishSegments(P, s2);
    acts := [Take(0)] + acts1;
    Then(P, s, acts, s2, more, s');
    acts := acts + more;
  }

  lemma CanTake(P: Plan, s: State)
    requires P.Valid() && Live(P, s) && |s.ws| > 0 && s.ws[0].Idle? && s.next < |P.segs|
    ensures P.Enabled(s, Take(0))
  {
    hide Settled, DoneOk, Ownership, Plan.GoodChunk;
    TileHere(P.segs, |P.chunks|, s.next);
  }

  lemma NextInside(P: Plan, s: State)
    requires Inv(P, s)
    ensures s.next <= |P.segs|
  {
    hide Settled, DoneOk, PcOk;
  }

  /**
   Every run of a plan whose seeds are repaired, or that has none, in which no worker has failed so far
   can be brought to its end without a failure, and then the target is the blob.
   */
  lemma {:induction false} EveryRunCanComplete(P: Plan, s: State, acts: seq<Action>, s': State) returns (more: seq<Action>, s'': State)
    requires P.Valid() && Repairs(P) && P.Initial(s) && P.Reaches(s, acts, s') && !s'.failed && |s'.ws| > 0
    ensures P.Reaches(s', more, s'') && WithoutFailure(more)
    ensures !s''.failed && s''.next == |P.segs| && (forall w :: 0 <= w < |s''.ws| ==> s''.ws[w].Idle?) && s''.file == P.blob
  {
    InitialInv(P, s);
    RunKeeps(P, s, acts, s');
    HasSources(P);
    OnlySourcedRun(P, s, acts, s');
    hide Inv, Plan.Valid, Plan.Reaches, Repairs, Plan.Initial;
    var acts1, s1 := FinishWorkers(P, s', |s'.ws|);
    NextInside(P, s1);
    var acts2;
    acts2, s'' := FinishSegments(P, s1);
    Then(P, s', acts1, s1, acts2, s'');
    more := acts1 + acts2;
    RunsJoin(P, s, acts, s', more, s'');
    AssemblyCorrect(P, s, acts + more, s'');
  }

  /** While a worker copies from a seed, any byte of its segment may become anything. */
  lemma SeedsWriteAnything(P: Plan, s: State, w: nat, c: nat, k: nat, b: Byte)
    requires P.Valid() && Inv(P, s) && w < |s.ws| && s.ws[w].Writing? && InSeg(P, s.ws[w].j, c) && k < P.chunks[c].size
    ensures P.Enabled(s, Scribble(w, c, k, b)) && P.chunks[c].start + k < |s.file|
    ensures P.Apply(s, Scribble(w, c, k, b)) == s.(file := s.file[P.chunks[c].start + k := b])
  {
    Busy(P, s, w);
    HasSources(P);
    ChunkInside(P, c);
    hide Inv, Plan.Valid;
    assert s.ws[w := s.ws[w]] == s.ws;
  }

  // ---------- where a chunk comes from ----------

  /** A segment with a source is written from it, one without is looked for chunk by chunk. */
  lemma TakenIs(P: Plan, s: State, w: nat)
    requires P.Enabled(s, Take(w))
    ensures var s' := P.Apply(s, Take(w));
            s'.next == s.next + 1 && s'.ws[w] == if P.sourced[s.next] then Writing(s.next) else InPlace(s.next, P.segs[s.next].first)
  {
  }

  /** After a seed was written its chunks are accepted exactly if they are the blob's; one that is not is repaired if that is asked for, and an error otherwise. */
  lemma AcceptedIff(P: Plan, s: State, w: nat)
    requires P.Valid() && Inv(P, s) && !s.failed && P.Enabled(s, Check(w))
    ensures var pc, s' := s.ws[w], P.Apply(s, Check(w));
            && s'.file == s.file
            && if P.Slice(s.file, pc.c) == P.Slice(P.blob, pc.c)
               then !s'.failed && (s'.ws[w] == Checking(pc.j, pc.c + 1) || s'.ws[w] == Adding(pc.j))
               else if P.regenerate then !s'.failed && s'.ws[w] == InPlace(pc.j, pc.c) else s'.failed
  {
    hide Ownership, DoneOk, Settled, PcOk;
    assert P.GoodChunk(s.ws[w].c);
  }

  /** writeChunk leaves a chunk alone exactly if the target is not blank and has it. */
  lemma InPlaceIff(P: Plan, s: State, w: nat)
    requires P.Valid() && Inv(P, s) && P.Enabled(s, TryInPlace(w))
    ensures var pc, s' := s.ws[w], P.Apply(s, TryInPlace(w));
            && s'.file == s.file
            && if !P.blank && P.Slice(s.file, pc.c) == P.Slice(P.blob, pc.c)
               then s'.ws[w] == Checking(pc.j, pc.c + 1) || s'.ws[w] == Adding(pc.j)
               else s'.ws[w] == Lookup(pc.j, pc.c)
  {
    hide Ownership, DoneOk, Settled, PcOk;
    assert P.GoodChunk(s.ws[w].c);
  }

  /** Otherwise it is copied from the first place in the finished part of the file that has it, and fetched exactly if there is none. */
  lemma FetchedIff(P: Plan, s: State, w: nat)
    requires P.Valid() && Inv(P, s) && P.Enabled(s, LookUp(w))
    ensures var pc, pc' := s.ws[w], P.Apply(s, LookUp(w)).ws[w];
            if exists i :: 0 <= i < s.seed.written && i < |P.chunks| && P.chunks[i].id == P.chunks[pc.c].id
            then pc'.Copying? && pc'.j == pc.j && pc'.c == pc.c && pc'.src < s.seed.written && pc'.src < |P.chunks|
                 && P.chunks[pc'.src].id == P.chunks[pc.c].id
                 && (forall i :: 0 <= i < pc'.src ==> P.chunks[i].id != P.chunks[pc.c].id)
                 && (forall k: nat :: k in pc'.left <==> k < P.chunks[pc.c].size)
            else pc' == Fetch(pc.j, pc.c)
  {
    var pc := s.ws[w];
    var id := P.chunks[pc.c].id;
    hide Inv, Plan.Valid, Record, Added;
    WrittenIs(P, s);
    RecordedPositions(P.chunks, s.seed.written, id);
    if id in s.seed.pos {
      SeedOffers(P, s, id);
      SizesAgree(P, pc.c, s.seed.pos[id][0]);
    }
  }

  lemma WrittenIs(P: Plan, s: State)
    requires P.Valid() && Inv(P, s)
    ensures s.seed.written <= |P.chunks| && s.seed.pos == Record(P.chunks, map[], 0, s.seed.written)
  {
    hide Ownership, DoneOk, PcOk, Record, CacheIs, Plan.Valid;
    var m: nat :| Settled(P.chunks, P.segs, s.done, m, s.seed);
  }

  /** Any busy worker may meet an error, and then the run has failed for good. */
  lemma FailureIsReported(P: Plan, s: State, w: nat)
    requires P.Valid() && Inv(P, s) && w < |s.ws| && !s.ws[w].Idle?
    ensures P.Enabled(s, Fail(w)) && P.Apply(s, Fail(w)).failed
  {
    Busy(P, s, w);
    HasSources(P);
    hide Inv, Plan.Valid;
  }

  lemma {:induction false} FailedForGood(P: Plan, s: State, acts: seq<Action>, s': State)
    requires P.Reaches(s, acts, s') && s.failed
    ensures s'.failed
    decreases |acts|
  {
    if acts != [] { FailedForGood(P, P.Apply(s, acts[0]), acts[1..], s'); }
  }
}
