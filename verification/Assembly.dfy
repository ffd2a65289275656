/**
 Assembling a file from an index with N concurrent workers. Each worker takes segments
 of the plan, fills them from a seed, the file itself, the self-seed or the store, and
 records them in the self-seed. Every byte written is a step of its own, so a run is an
 arbitrary interleaving of the workers' reads and writes.
 */
module Assembly {
  import opened Chunking
  import opened SelfSeed

  /** Where a worker stands: j is its segment, c the chunk it works on, `left` the bytes of it still to be written. */
  datatype Pc =
    | Idle
    | Writing(j: nat)                                       // source.WriteInto
    | Checking(j: nat, c: nat)                              // re-reading chunk c after the write
    | InPlace(j: nat, c: nat)                               // writeChunk: is it in the file already?
    | Lookup(j: nat, c: nat)                                // ... is it in the self-seed?
    | Fetch(j: nat, c: nat)                                 // ... take it from the store
    | Copying(j: nat, c: nat, src: nat, left: set<nat>)     // copying chunk src of the file
    | Storing(j: nat, c: nat, left: set<nat>)               // writing data from the store
    | Adding(j: nat)                                        // recording the segment in the self-seed

  datatype State = State(file: seq<Byte>, next: nat, done: set<nat>, seed: Fields, ws: seq<Pc>, failed: bool)

  datatype Action =
    | Take(w: nat)
    | Scribble(w: nat, c: nat, k: nat, b: Byte)
    | WriteDone(w: nat)
    | Check(w: nat)
    | TryInPlace(w: nat)
    | LookUp(w: nat)
    | Get(w: nat)
    | CopyByte(w: nat, k: nat)
    | StoreByte(w: nat, k: nat)
    | ChunkDone(w: nat)
    | Add(w: nat)
    | Fail(w: nat)

  /** The plan: segments of the index, each with or without a seed to copy from. */
  datatype Plan = Plan(
    blob: seq<Byte>, chunks: seq<IndexChunk>, segs: seq<Segment>, sourced: seq<bool>,
    digest: seq<Byte> -> ChunkID, store: ChunkID -> seq<Byte>, regenerate: bool, blank: bool)
  {
    /** Chunk c starts where the one before ends. */
    predicate ChunkAt(c: nat)
      requires c < |chunks|
    {
      chunks[c].start == EndOf(c) && chunks[c].End() <= |blob|
    }

    function EndOf(c: nat): nat
      requires c <= |chunks|
    {
      if c == 0 then 0 else chunks[c - 1].End()
    }

    function Slice(file: seq<Byte>, c: nat): seq<Byte>
      requires c < |chunks|
    {
      if chunks[c].End() <= |file| then file[chunks[c].start..chunks[c].End()] else []
    }

    /** No other bytes share the ID of chunk c. */
    ghost predicate Identified(c: nat)
      requires c < |chunks|
    {
      digest(Slice(blob, c)) == chunks[c].id && forall b :: digest(b) == chunks[c].id ==> b == Slice(blob, c)
    }

    ghost predicate GoodChunk(c: nat)
      requires c < |chunks|
    {
      ChunkAt(c) && Identified(c) && digest(store(chunks[c].id)) == chunks[c].id
    }

    /** An index of the blob, a store with correct data, a plan that tiles the index, and single chunks where there is no seed. */
    ghost predicate Valid() {
      && (forall c :: 0 <= c < |chunks| ==> GoodChunk(c))
      && EndOf(|chunks|) == |blob|
      && Tiles(segs, |chunks|) && StartOf(segs, |segs|) == |chunks| && |sourced| == |segs|
      && forall j :: 0 <= j < |segs| && !sourced[j] ==> segs[j].first == segs[j].last
    }

    function All(c: nat): set<nat>
      requires c < |chunks|
    {
      Below(chunks[c].size)
    }

    predicate IdMatches(file: seq<Byte>, c: nat)
      requires c < |chunks|
    {
      digest(Slice(file, c)) == chunks[c].id
    }

    // ---------- steps ----------

    /** The chunk a worker is at, or the segment it holds, exists. */
    predicate PcInside(pc: Pc) {
      match pc
      case Idle => true
      case Writing(j) => j < |segs|
      case Adding(j) => j < |segs|
      case Copying(j, c, src, left) => j < |segs| && c < |chunks| && src < |chunks|
      case _ => pc.j < |segs| && pc.c < |chunks|
    }

    predicate Enabled(s: State, a: Action) {
      && a.w < |s.ws| && PcInside(s.ws[a.w]) && |s.file| == |blob| && |sourced| == |segs|
      && var pc := s.ws[a.w];
         match a
         case Take(_) => pc.Idle? && s.next < |segs| && segs[s.next].first < |chunks|
         case Scribble(_, c, k, _) =>
           pc.Writing? && segs[pc.j].first <= c <= segs[pc.j].last && c < |chunks| && k < chunks[c].size && chunks[c].End() <= |s.file|
         case WriteDone(_) => pc.Writing? && segs[pc.j].first < |chunks|
         case Check(_) => pc.Checking?
         case TryInPlace(_) => pc.InPlace?
         case LookUp(_) => pc.Lookup? && (chunks[pc.c].id in s.seed.pos ==> s.seed.pos[chunks[pc.c].id] != [])
         case Get(_) => pc.Fetch?
         case CopyByte(_, k) => pc.Copying? && k in pc.left && chunks[pc.c].start + k < |s.file| && chunks[pc.src].start + k < |s.file|
         case StoreByte(_, k) =>
           pc.Storing? && k in pc.left && chunks[pc.c].start + k < |s.file| && k < |store(chunks[pc.c].id)|
         case ChunkDone(_) => (pc.Copying? || pc.Storing?) && pc.left == {}
         case Add(_) => pc.Adding? && CacheInside(s.seed.cache, |chunks|) && segs[pc.j].last < |chunks|
         case Fail(_) => !pc.Idle?
    }

    /** What follows a chunk that is in place: the next chunk of a sourced segment, or recording. */
    function AfterChunk(j: nat, c: nat): Pc
      requires j < |segs| && |sourced| == |segs|
    {
      if sourced[j] && c < segs[j].last then Checking(j, c + 1) else Adding(j)
    }

    function NextPc(s: State, a: Action): Pc
      requires Enabled(s, a)
    {
      var pc := s.ws[a.w];
      match a
      case Take(_) => if sourced[s.next] then Writing(s.next) else InPlace(s.next, segs[s.next].first)
      case Scribble(_, _, _, _) => pc
      case WriteDone(_) => Checking(pc.j, segs[pc.j].first)
      case Check(_) =>
        if IdMatches(s.file, pc.c) then AfterChunk(pc.j, pc.c)
        else if regenerate then InPlace(pc.j, pc.c) else Idle
      case TryInPlace(_) =>
        if !blank && IdMatches(s.file, pc.c) then AfterChunk(pc.j, pc.c) else Lookup(pc.j, pc.c)
      case LookUp(_) =>
        var id := chunks[pc.c].id;
        if id in s.seed.pos && s.seed.pos[id][0] < |chunks| && chunks[s.seed.pos[id][0]].size == chunks[pc.c].size
        then Copying(pc.j, pc.c, s.seed.pos[id][0], All(pc.c))
        else if id in s.seed.pos then Idle
        else Fetch(pc.j, pc.c)
      case Get(_) => if |store(chunks[pc.c].id)| == chunks[pc.c].size then Storing(pc.j, pc.c, All(pc.c)) else Idle
      case CopyByte(_, k) => Copying(pc.j, pc.c, pc.src, pc.left - {k})
      case StoreByte(_, k) => Storing(pc.j, pc.c, pc.left - {k})
      case ChunkDone(_) => AfterChunk(pc.j, pc.c)
      case Add(_) => Idle
      case Fail(_) => Idle
    }

    /** A worker that goes idle other than by recording its segment has returned an error. */
    function Apply(s: State, a: Action): State
      requires Enabled(s, a)
    {
      var pc, pc' := s.ws[a.w], NextPc(s, a);
      var t := s.(ws := s.ws[a.w := pc']);
      match a
      case Take(_) => t.(next := s.next + 1)
      case Scribble(_, c, k, b) => t.(file := s.file[chunks[c].start + k := b])
      case CopyByte(_, k) => t.(file := s.file[chunks[pc.c].start + k := s.file[chunks[pc.src].start + k]])
      case StoreByte(_, k) => t.(file := s.file[chunks[pc.c].start + k := store(chunks[pc.c].id)[k]])
      case Add(_) => t.(seed := Added(chunks, s.seed, segs[pc.j]), done := s.done + {pc.j})
      case _ => t.(failed := s.failed || pc'.Idle?)
    }

    /** The start: a target of the right length with any content, all workers idle. */
    predicate Initial(s: State) {
      && |s.file| == |blob| && s.next == 0 && s.done == {} && !s.failed
      && s.seed == Fields(0, map[], map[])
      && forall w :: 0 <= w < |s.ws| ==> s.ws[w].Idle?
    }

    ghost predicate Reaches(s: State, acts: seq<Action>, s': State)
      decreases |acts|
    {
      if acts == [] then s == s'
      else Enabled(s, acts[0]) && Reaches(Apply(s, acts[0]), acts[1..], s')
    }
  }

  function Below(n: nat): (r: set<nat>)
    ensures forall k: nat :: k in r <==> k < n
  {
    if n == 0 then {} else Below(n - 1) + {n - 1}
  }
}
