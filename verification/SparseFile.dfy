/**
 The copy-on-read file: reads load the chunks they need from the store into the file, each
 chunk at most once, and then read the file. Reads and preloads interleave byte by byte.
 */
module SparseFile {
  import opened Chunking
  import opened Planning
  import opened IndexedBlob

  // ---------- the chunks of a range ----------

  predicate Overlaps(c: IndexChunk, start: nat, length: nat) {
    c.start < start + length && start < c.End()
  }

  /** What indexRange promises: exactly the chunks that overlap the range, the last one for a range past the end. */
  ghost predicate IsRange(chunks: seq<IndexChunk>, blob: seq<Byte>, start: nat, length: nat, first: nat, last: nat) {
    && first <= last
    && (last < |chunks| || (length == 0 && start >= |blob|))
    && (start < |blob| ==> forall i :: 0 <= i < |chunks| && Overlaps(chunks[i], start, length) ==> first <= i <= last)
    && (start < |blob| && length > 0 ==> forall i :: first <= i <= last && i < |chunks| ==> Overlaps(chunks[i], start, length))
    && (start >= |blob| && length > 0 ==> first == last == |chunks| - 1)
  }

  method IndexRange(chunks: seq<IndexChunk>, ghost blob: seq<Byte>, start: nat, length: nat) returns (first: nat, last: nat)
    requires Covers(chunks, blob)
    ensures IsRange(chunks, blob, start, length, first, last)
  {
    hide Consecutive, Positive;
    var end: int := start + length - 1;
    first := SearchEnd(chunks, start);
    FoundHolds(chunks, blob, start, first);
    if length < 1 {
      if first < |chunks| - 1 {
        InOrder(chunks, first, first + 1);
        Beyond(chunks, first + 1, start);
      }
      return first, first;
    }
    if first >= |chunks| {
      return |chunks| - 1, |chunks| - 1;
    }
    last := first;
    var i := first + 1;
    while i < |chunks|
      invariant first <= last < |chunks| && i == last + 1
      invariant forall j :: first <= j <= last ==> chunks[j].start <= end
      decreases |chunks| - i
    {
      if end < chunks[i].start {
        break;
      }
      last := last + 1;
      i := i + 1;
    }
    Beyond(chunks, i, end);
  }

  lemma Beyond(chunks: seq<IndexChunk>, i: nat, end: int)
    requires Consecutive(chunks) && Positive(chunks) && i <= |chunks| && (i < |chunks| ==> end < chunks[i].start)
    ensures forall j :: i <= j < |chunks| ==> end < chunks[j].start
  {
    forall j | i <= j < |chunks|
      ensures end < chunks[j].start
    {
      if i < j { InOrder(chunks, i, j); }
    }
  }

  // ---------- the protocol ----------

  datatype Once = Fresh | Running(w: nat) | Spent

  datatype Job = Read(off: nat, len: nat) | Preload

  /** Where a call stands; the first needed chunk is the one it works on. */
  datatype Pc =
    | Idle
    | Loading(job: Job, needed: seq<nat>)
    | Writing(job: Job, needed: seq<nat>, left: set<nat>)   // inside `once`, these bytes are still to be written
    | Leaving(job: Job, needed: seq<nat>)                   // marked as done, still inside `once`
    | Reading(job: Job, got: seq<Byte>)
    | Finished(job: Job, got: seq<Byte>)
    | Errored(job: Job)

  /** `lost` holds the bytes that failed loads left unwritten. */
  datatype State = State(file: seq<Byte>, done: set<nat>, once: seq<Once>, lost: set<nat>, ws: seq<Pc>)

  datatype Action =
    | Begin(w: nat, off: nat, len: nat, first: nat, last: nat)
    | BeginPreload(w: nat, chunk: nat)
    | Enter(w: nat)
    | Pass(w: nat)
    | WriteByte(w: nat, b: nat)
    | Fail(w: nat)
    | Mark(w: nat)
    | Leave(w: nat)
    | Start(w: nat)
    | ReadByte(w: nat)
    | Finish(w: nat)

  function Range(a: nat, n: nat): (s: set<nat>)
    ensures forall b: nat :: b in s <==> a <= b < a + n
  {
    if n == 0 then {} else Range(a, n - 1) + {a + n - 1}
  }

  /** An index of the blob and the file and bitmap the process started with. */
  datatype Cache = Cache(chunks: seq<IndexChunk>, blob: seq<Byte>, nullID: ChunkID, file0: seq<Byte>, done0: set<nat>) {
    /** Chunk i need not be loaded: the file had it at the start. */
    predicate Skippable(i: nat)
      requires i < |chunks|
    {
      i in done0 || chunks[i].id == nullID
    }

    predicate GoodAt(i: nat)
      requires i < |chunks| && |file0| == |blob| && Covers(chunks, blob)
    {
      Skippable(i) ==> forall b: nat :: chunks[i].start <= b < chunks[i].End() ==> Same(i, b)
    }

    predicate Same(i: nat, b: nat)
      requires i < |chunks| && |file0| == |blob| && Covers(chunks, blob) && chunks[i].start <= b < chunks[i].End()
    {
      Inside(chunks, blob, i);
      file0[b] == blob[b]
    }

    /** A file of full length that has the chunks marked as done, and zeros where null chunks go. */
    ghost predicate Valid() {
      && Covers(chunks, blob) && |file0| == |blob|
      && (forall i :: i in done0 ==> i < |chunks|)
      && forall i :: 0 <= i < |chunks| ==> GoodAt(i)
    }

    predicate Initial(s: State) {
      && s.file == file0 && s.done == done0 && s.lost == {}
      && |s.once| == |chunks| && (forall i :: 0 <= i < |chunks| ==> s.once[i] == Fresh)
      && forall w :: 0 <= w < |s.ws| ==> s.ws[w] == Idle
    }

    /** The chunks of a range that are neither done nor null, in order. */
    function Needed(done: set<nat>, i: nat, last: nat): (r: seq<nat>)
      requires last < |chunks| && i <= last + 1
      ensures forall x :: x in r ==> i <= x <= last
      ensures forall x :: i <= x <= last ==> x in r || x in done || chunks[x].id == nullID
      decreases last + 1 - i
    {
      if i > last then []
      else if i in done || chunks[i].id == nullID then Needed(done, i + 1, last)
      else [i] + Needed(done, i + 1, last)
    }

    /** How many bytes a read delivers. */
    function Want(off: nat, len: nat): nat {
      if off >= |blob| then 0 else Min(len, |blob| - off)
    }

    function All(i: nat): set<nat>
      requires i < |chunks|
    {
      Range(chunks[i].start, chunks[i].size)
    }

    ghost predicate Enabled(s: State, a: Action) {
      && a.w < |s.ws| && |s.once| == |chunks| && |s.file| == |blob|
      && var pc := s.ws[a.w];
         match a
         case Begin(_, off, len, first, last) => pc.Idle? && last < |chunks| && IsRange(chunks, blob, off, len, first, last)
         case BeginPreload(_, chunk) => pc.Idle? && chunk < |chunks|
         case Enter(_) => pc.Loading? && pc.needed != [] && pc.needed[0] < |chunks| && s.once[pc.needed[0]] == Fresh
         case Pass(_) => pc.Loading? && pc.needed != [] && pc.needed[0] < |chunks| && s.once[pc.needed[0]] == Spent
         case WriteByte(_, b) => pc.Writing? && b in pc.left && b < |blob|
         case Fail(_) => pc.Writing? && pc.needed != [] && pc.needed[0] < |chunks|
         case Mark(_) => pc.Writing? && pc.left == {} && pc.needed != []
         case Leave(_) => pc.Leaving? && pc.needed != [] && pc.needed[0] < |chunks|
         case Start(_) => pc.Loading? && pc.needed == []
         case ReadByte(_) => pc.Reading? && pc.job.Read? && |pc.got| < Want(pc.job.off, pc.job.len)
         case Finish(_) => pc.Reading? && pc.job.Read? && |pc.got| == Want(pc.job.off, pc.job.len)
    }

    ghost function Apply(s: State, a: Action): State
      requires Enabled(s, a)
    {
      var w, pc := a.w, s.ws[a.w];
      match a
      case Begin(_, off, len, first, last) => s.(ws := s.ws[w := Loading(Read(off, len), Needed(s.done, first, last))])
      case BeginPreload(_, chunk) => s.(ws := s.ws[w := Loading(Preload, [chunk])])
      case Enter(_) =>
        var c := pc.needed[0];
        s.(once := s.once[c := Running(w)], ws := s.ws[w := Writing(pc.job, pc.needed, All(c))])
      case Pass(_) => s.(ws := s.ws[w := Loading(pc.job, pc.needed[1..])])
      case WriteByte(_, b) => s.(file := s.file[b := blob[b]], ws := s.ws[w := Writing(pc.job, pc.needed, pc.left - {b})])
      case Fail(_) =>
        s.(once := s.once[pc.needed[0] := Spent], lost := s.lost + pc.left, ws := s.ws[w := if pc.job.Preload? then Idle else Errored(pc.job)])
      case Mark(_) => s.(done := s.done + {pc.needed[0]}, ws := s.ws[w := Leaving(pc.job, pc.needed)])
      case Leave(_) => s.(once := s.once[pc.needed[0] := Spent], ws := s.ws[w := Loading(pc.job, pc.needed[1..])])
      case Start(_) => s.(ws := s.ws[w := if pc.job.Preload? then Idle else Reading(pc.job, [])])
      case ReadByte(_) => s.(ws := s.ws[w := Reading(pc.job, pc.got + [s.file[pc.job.off + |pc.got|]])])
      case Finish(_) => s.(ws := s.ws[w := Finished(pc.job, pc.got)])
    }

    ghost predicate Reaches(s: State, acts: seq<Action>, s': State)
      decreases |acts|
    {
      if acts == [] then s' == s else Enabled(s, acts[0]) && Reaches(Apply(s, acts[0]), acts[1..], s')
    }
  }

  /** The first loop of loadRange, under the read lock. */
  method ChunksNeeded(P: Cache, done: set<nat>, first: nat, last: nat) returns (needed: seq<nat>)
    requires first <= last < |P.chunks|
    ensures needed == P.Needed(done, first, last)
    ensures forall x :: x in needed <==> first <= x <= last && x !in done && P.chunks[x].id != P.nullID
  {
    needed := [];
    for i := first to last + 1
      invariant needed + P.Needed(done, i, last) == P.Needed(done, first, last)
      invariant forall x :: x in needed <==> first <= x < i && x !in done && P.chunks[x].id != P.nullID
    {
      if i in done {
        continue;
      }
      if P.chunks[i].id == P.nullID {
        continue;
      }
      needed := needed + [i];
    }
  }
}
