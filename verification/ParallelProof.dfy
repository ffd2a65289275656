/**
 Safety of parallel chunking over every interleaving: the collected index is always a
 prefix of the single-stream chunk list, and exactly when it is the whole list.
 */
module ParallelProof {
  import opened Chunking
  import opened Parallel

  // ---------- what one worker keeps ----------

  /** Some null chunk was cut at full size, so zero bytes hold no early boundary. */
  ghost predicate NullSeen(J: Job)
    requires J.st.Valid()
  {
    exists q: nat :: J.st.Zeros(q, q + J.st.p.max) && Cut(J.st.p, J.st.data, q) == J.st.p.max
  }

  ghost predicate ZeroAhead(J: Job, chunk: IndexChunk, n: int)
    requires J.st.Valid()
  {
    NullSeen(J) && n >= 0 && J.st.Zeros(chunk.start, chunk.start + n + J.st.p.max)
  }

  predicate AtLast(w: Worker, chunk: IndexChunk) {
    |w.made| > 0 && chunk == w.made[|w.made| - 1] && w.pos == w.End()
  }

  ghost predicate PcOk(J: Job, w: Worker)
    requires J.st.Valid()
  {
    match w.pc
    case Sync(chunk, _) => AtLast(w, chunk)
    case Count(chunk, n) => AtLast(w, chunk) && ZeroAhead(J, chunk, n)
    case Jump(chunk, n) => AtLast(w, chunk) && ZeroAhead(J, chunk, n)
    case Emit(left) =>
      w.pos == w.End() + Span(left, J.st.p.max) && (left > 0 ==> NullSeen(J)) && J.st.Zeros(w.End(), w.pos)
    case _ => w.Stopped() || w.pos == w.End()
  }

  ghost predicate WorkerOk(J: Job, w: Worker)
    requires J.st.Valid()
  {
    && J.st.IsRun(w.made, w.offset) && w.taken <= |w.made|
    && (w.eof ==> w.Stopped() && w.End() == J.Size())
    && (w.err ==> w.Stopped())
    && PcOk(J, w)
  }

  /** Every chunk of a run is the single-stream chunk at its own start. */
  lemma RunElem(J: Job, w: Worker, k: nat)
    requires J.st.Valid() && WorkerOk(J, w) && k < |w.made|
    ensures w.made[k].start < J.Size() && w.made[k] == J.st.ChunkAt(w.made[k].start)
    ensures k > 0 ==> w.made[k].start == w.made[k - 1].End()
    ensures w.made[k].start == RunEnd(w.made[..k], w.offset)
  {
  }

  /** A chunk that carries the null ID is max zero bytes cut at full size. */
  lemma NullChunk(J: Job, w: Worker, k: nat)
    requires J.Valid() && WorkerOk(J, w) && k < |w.made| && w.made[k].id == J.NullID()
    ensures w.made[k].size == J.st.p.max && J.st.Zeros(w.made[k].start, w.made[k].End())
    ensures NullSeen(J)
  {
    hide Cut, WorkerOk;
    RunElem(J, w, k);
    var q := w.made[k].start;
    NullBytes(J, q, Cut(J.st.p, J.st.data, q));
  }

  /** Bytes with the null chunk's ID are max zeros. */
  lemma NullBytes(J: Job, q: nat, n: nat)
    requires J.Valid() && q + n <= J.Size() && J.st.digest(J.st.data[q..q + n]) == J.NullID()
    ensures n == J.st.p.max && J.st.Zeros(q, q + n)
  {
    hide ZeroBytes;
    var b := J.st.data[q..q + n];
    assert b == ZeroBytes(J.st.p.max);
    forall i | q <= i < q + n
      ensures J.st.data[i] == 0
    {
      assert b[i - q] == 0;
    }
  }

  lemma NullCutHere(J: Job, at: nat)
    requires J.st.Valid() && NullSeen(J) && J.st.Zeros(at, at + J.st.p.max)
    ensures at < J.Size() && J.st.ChunkAt(at) == IndexChunk(J.NullID(), at, J.st.p.max)
  {
    var q: nat :| J.st.Zeros(q, q + J.st.p.max) && Cut(J.st.p, J.st.data, q) == J.st.p.max;
    J.st.NullCut(q, at);
    J.st.ZeroSlice(at);
  }

  /** Counting starts: both neighbouring null chunks reach from before `chunk` to n + max past its start. */
  lemma CountBegins(J: Job, x: Worker, chunk: IndexChunk)
    requires J.Valid() && WorkerOk(J, x) && x.taken >= 2
    requires x.made[x.taken - 2].id == J.NullID() && x.made[x.taken - 1].id == J.NullID()
    requires x.made[x.taken - 2].start < chunk.start <= x.made[x.taken - 1].start
    ensures ZeroAhead(J, chunk, x.made[x.taken - 2].End() - chunk.start)
    ensures x.made[x.taken - 1].End() == x.made[x.taken - 2].End() + J.st.p.max
  {
    NullChunk(J, x, x.taken - 2);
    NullChunk(J, x, x.taken - 1);
    RunElem(J, x, x.taken - 1);
  }

  /** Counting goes on: a further null chunk extends the zero bytes by max. */
  lemma CountGrows(J: Job, x: Worker, chunk: IndexChunk, n: int)
    requires J.Valid() && WorkerOk(J, x) && 0 < x.taken < |x.made| && ZeroAhead(J, chunk, n)
    requires x.made[x.taken - 1].End() == chunk.start + n + J.st.p.max
    requires x.made[x.taken].id == J.NullID()
    ensures ZeroAhead(J, chunk, n + J.st.p.max)
    ensures x.made[x.taken].End() == chunk.start + n + 2 * J.st.p.max
  {
    NullChunk(J, x, x.taken);
    RunElem(J, x, x.taken);
  }

  /**
   Null-run skipping: the n zero bytes that syncWith reports are counted from the start of
   `chunk` and leave out the last null chunk; as `chunk` itself is a null chunk of max bytes,
   the two offsets cancel and n zero bytes lie ahead of its end.
   */
  lemma ReportedZeros(J: Job, w: Worker, chunk: IndexChunk, n: int)
    requires J.st.Valid() && WorkerOk(J, w) && AtLast(w, chunk) && ZeroAhead(J, chunk, n)
    ensures chunk == IndexChunk(J.NullID(), chunk.start, J.st.p.max)
    ensures J.st.Zeros(w.End(), w.End() + n)
  {
    RunElem(J, w, |w.made| - 1);
    NullCutHere(J, chunk.start);
  }

  /** ... so the floor(n/max) null chunks emitted next are what chunking would give. */
  lemma {:induction false} SkippedChunksAreReal(J: Job, at: nat, k: nat)
    requires J.st.Valid() && NullSeen(J) && J.st.Zeros(at, at + Span(k, J.st.p.max))
    ensures J.st.Chunks(at) == NullChunks(J, at, k) + J.st.Chunks(at + Span(k, J.st.p.max))
    decreases k
  {
    hide NullSeen, Stream.Chunks;
    if k > 0 {
      var m := J.st.p.max;
      NullStep(J, at);
      SkippedChunksAreReal(J, at + m, k - 1);
      var head, mid, rest := [IndexChunk(J.NullID(), at, m)], NullChunks(J, at + m, k - 1), J.st.Chunks(at + Span(k, m));
      assert head + (mid + rest) == (head + mid) + rest;
    }
  }

  lemma NullStep(J: Job, at: nat)
    requires J.st.Valid() && NullSeen(J) && J.st.Zeros(at, at + J.st.p.max)
    ensures J.st.Chunks(at) == [IndexChunk(J.NullID(), at, J.st.p.max)] + J.st.Chunks(at + J.st.p.max)
  {
    hide Cut, NullSeen, Stream.ChunkAt, Stream.Zeros;
    NullCutHere(J, at);
  }

  /** k chunks of m bytes each. */
  function Span(k: nat, m: nat): nat {
    if k == 0 then 0 else m + Span(k - 1, m)
  }

  lemma {:induction false} SpanIsProduct(k: nat, m: nat)
    ensures Span(k, m) == k * m
  {
    if k > 0 {
      SpanIsProduct(k - 1, m);
    }
  }

  function NullChunks(J: Job, at: nat, k: nat): seq<IndexChunk>
    decreases k
  {
    if k == 0 then [] else [IndexChunk(J.NullID(), at, J.st.p.max)] + NullChunks(J, at + J.st.p.max, k - 1)
  }

  lemma FloorBound(n: nat, m: nat)
    requires m > 0
    ensures 0 <= n / m * m <= n
  {
  }

  // ---------- local steps ----------

  predicate IsLocal(a: Action) {
    !a.Collect? && !a.Leave? && !a.SyncStep? && !a.CountStep? && !a.SkipStep?
  }

  /** A worker only ever adds to what it made, and stays stopped once stopped. */
  predicate Extends(w: Worker, w': Worker) {
    && w'.offset == w.offset && w'.taken == w.taken && w'.sync == w.sync && w'.next == w.next
    && w.made <= w'.made
    && (w.Stopped() ==> w'.made == w.made && w'.Stopped() && w'.eof == w.eof && w'.err == w.err)
    && (w.Done() ==> w'.Done()) && (w.pc.Closed? ==> w'.pc.Closed?)
  }

  lemma ProduceKeeps(J: Job, w: Worker, pc: Pc)
    requires J.st.Valid() && WorkerOk(J, w) && w.pc.Top? && w.pos < J.Size()
    requires pc == Check || pc == Sync(J.st.ChunkAt(w.pos), NO_CHUNK)
    ensures var w' := w.Push(J.st.ChunkAt(w.pos)).(pos := J.st.ChunkAt(w.pos).End(), pc := pc);
            WorkerOk(J, w') && Extends(w, w')
  {
    hide Cut, Stream.IsRun, Stream.ChunkAt;
    J.st.RunSnoc(w.made, w.offset, J.st.ChunkAt(w.pos));
  }

  lemma JumpKeeps(J: Job, w: Worker, k: nat, skip: nat)
    requires J.st.Valid() && WorkerOk(J, w) && w.pc.Jump?
    requires k == w.pc.n / J.st.p.max && skip == k * J.st.p.max
    ensures WorkerOk(J, w.(pos := w.pos + skip, pc := Emit(k)))
  {
    hide Cut, Stream.IsRun;
    ReportedZeros(J, w, w.pc.chunk, w.pc.n);
    FloorBound(w.pc.n, J.st.p.max);
    SpanIsProduct(k, J.st.p.max);
  }

  lemma EmitKeeps(J: Job, w: Worker)
    requires J.st.Valid() && WorkerOk(J, w) && w.pc.Emit? && w.pc.left > 0
    ensures var w' := w.Push(IndexChunk(J.NullID(), w.End(), J.st.p.max)).(pc := Emit(w.pc.left - 1));
            WorkerOk(J, w') && Extends(w, w')
  {
    hide Cut, Stream.IsRun, Stream.ChunkAt, NullSeen;
    NullCutHere(J, w.End());
    J.st.RunSnoc(w.made, w.offset, IndexChunk(J.NullID(), w.End(), J.st.p.max));
  }

  lemma LocalKeepsWorker(J: Job, s: State, a: Action)
    requires J.st.Valid() && IsLocal(a) && J.Enabled(s, a) && WorkerOk(J, s.ws[a.i])
    ensures WorkerOk(J, J.Local(s, a)) && Extends(s.ws[a.i], J.Local(s, a))
  {
    hide Cut, Stream.IsRun, Stream.ChunkAt, Stream.Zeros, NullSeen;
    var w := s.ws[a.i];
    match a
    case Produce(_) => ProduceKeeps(J, w, J.Local(s, a).pc);
    case JumpStep(_) => JumpKeeps(J, w, w.pc.n / J.st.p.max, w.pc.n / J.st.p.max * J.st.p.max);
    case EmitStep(_) => if w.pc.left > 0 { EmitKeeps(J, w); }
    case AtEnd(_) => J.st.RunEndInside(w.made, w.offset);
    case Fail(_) =>
    case CheckStep(_) =>
    case Stop(_) =>
    case Close(_) =>
  }

  // ---------- the whole system ----------

  /** Workers between i and its `next` have finished, are empty, and reach no further than i does. */
  ghost predicate Links(ws: seq<Worker>) {
    && (forall i :: 0 <= i < |ws| ==> i < ws[i].next <= |ws|)
    && (forall i, w :: 0 <= i < w < |ws| && w < ws[i].next ==>
          ws[w].Done() && ws[w].Drained() && ws[w].next <= ws[i].next)
  }

  predicate SyncOk(w: Worker) {
    w.sync == NO_CHUNK || (0 < w.taken <= |w.made| && w.sync == w.made[w.taken - 1])
  }

  predicate Reads(w: Worker) { w.pc.Sync? || w.pc.Count? || w.pc.CheckLen? }

  /** What the reader w knows about the worker x whose bucket it is reading. */
  predicate ReadOk(J: Job, w: Worker, x: Worker) {
    match w.pc
    case Sync(chunk, prev) =>
      prev == NO_CHUNK ||
      (2 <= x.taken <= |x.made| && prev == x.made[x.taken - 2] && prev.start < chunk.start && x.sync == x.made[x.taken - 1])
    case Count(chunk, n) =>
      0 < x.taken <= |x.made| && x.sync == x.made[x.taken - 1] && x.sync.End() == chunk.start + n + J.st.p.max
    case CheckLen => x.Done()
    case _ => true
  }

  ghost predicate Reading(J: Job, ws: seq<Worker>) {
    forall i :: 0 <= i < |ws| && Reads(ws[i]) ==> ws[i].next < |ws| && ReadOk(J, ws[i], ws[ws[i].next])
  }

  ghost predicate Skipped(ws: seq<Worker>, i: nat) {
    exists j :: 0 <= j < i && j < |ws| && ws[j].next > i
  }

  /** Stopped because its last chunk lined up with one of `next`. */
  predicate Synced(w: Worker) { w.Stopped() && !w.eof && !w.err }

  predicate HandOk(w: Worker, x: Worker) {
    |w.made| > 0 && 0 < x.taken <= |x.made| && x.made[x.taken - 1] == w.made[|w.made| - 1]
  }

  /** A synced worker that nobody skipped ends where the rest of its next's bucket begins. */
  ghost predicate Handed(ws: seq<Worker>, cur: nat) {
    forall i :: cur <= i < |ws| && Synced(ws[i]) ==>
      ws[i].next < |ws| && |ws[i].made| > 0 && (Skipped(ws, i) || HandOk(ws[i], ws[ws[i].next]))
  }

  /** k is the worker whose remaining bucket continues what was collected so far. */
  ghost predicate Target(J: Job, s: State, k: nat)
    requires J.st.Valid()
  {
    && s.cur <= k < |s.ws|
    && (forall j :: 0 <= j < s.cur ==> s.ws[j].pc.Closed?)
    && (forall j :: s.cur <= j < k ==> s.ws[j].Done() && s.ws[j].Drained())
    && (forall j :: 0 <= j < k ==> s.ws[j].next <= k)
    && J.st.IsRun(s.out, 0)
    && s.ws[k].taken <= |s.ws[k].made|
    && RunEnd(s.ws[k].made[..s.ws[k].taken], s.ws[k].offset) == RunEnd(s.out, 0)
    && (s.cur < k ==> exists j :: 0 <= j < s.cur && Handoff(s, j, k))
  }

  /** Worker j handed over to k, past the worker the collector is at. */
  ghost predicate Handoff(s: State, j: nat, k: nat) {
    j < |s.ws| && s.ws[j].next == k && !Skipped(s.ws, j) && s.ws[j].End() == RunEnd(s.out, 0)
  }

  ghost predicate Inv(J: Job, s: State)
    requires J.st.Valid()
  {
    && AllOk(J, s.ws) && AllSync(s.ws, s.cur)
    && Links(s.ws) && Reading(J, s.ws) && Handed(s.ws, s.cur)
    && (exists k: nat :: Target(J, s, k))
    && (s.status.Finished? ==> s.cur < |s.ws| && s.ws[s.cur].eof && s.ws[s.cur].Drained())
  }

  ghost predicate AllOk(J: Job, ws: seq<Worker>)
    requires J.st.Valid()
  {
    forall i :: 0 <= i < |ws| ==> WorkerOk(J, ws[i])
  }

  ghost predicate AllSync(ws: seq<Worker>, cur: nat) {
    forall i :: cur < i < |ws| ==> SyncOk(ws[i])
  }

  // ---------- local steps keep it ----------

  lemma LinksLocal(ws: seq<Worker>, i: nat, w': Worker)
    requires Links(ws) && i < |ws| && Extends(ws[i], w')
    ensures Links(ws[i := w'])
  {
  }

  lemma ReadingLocal(J: Job, ws: seq<Worker>, i: nat, w': Worker)
    requires Links(ws) && Reading(J, ws) && i < |ws| && Extends(ws[i], w')
    requires Reads(w') ==> w'.next < |ws| && ReadOk(J, w', ws[w'.next])
    ensures Reading(J, ws[i := w'])
  {
    var ws' := ws[i := w'];
    forall l | 0 <= l < |ws'| && Reads(ws'[l])
      ensures ws'[l].next < |ws'| && ReadOk(J, ws'[l], ws'[ws'[l].next])
    {
      if l != i { assert Reads(ws[l]) && ReadOk(J, ws[l], ws[ws[l].next]); }
    }
  }

  lemma SkippedSame(ws: seq<Worker>, ws': seq<Worker>, l: nat)
    requires |ws| == |ws'| && forall j :: 0 <= j < |ws| ==> ws'[j].next >= ws[j].next
    ensures Skipped(ws, l) ==> Skipped(ws', l)
  {
  }

  lemma HandedLocal(ws: seq<Worker>, cur: nat, i: nat, w': Worker)
    requires Links(ws) && Handed(ws, cur) && i < |ws| && Extends(ws[i], w')
    requires Synced(w') ==> Synced(ws[i]) || (w'.next < |ws| && HandOk(w', ws[w'.next]))
    ensures Handed(ws[i := w'], cur)
  {
    var ws' := ws[i := w'];
    forall l: nat | cur <= l < |ws'| && Synced(ws'[l])
      ensures ws'[l].next < |ws'| && |ws'[l].made| > 0 && (Skipped(ws', l) || HandOk(ws'[l], ws'[ws'[l].next]))
    {
      if l != i || Synced(ws[i]) {
        assert Synced(ws[l]);
        SkippedSame(ws, ws', l);
      }
    }
  }

  lemma TargetLocal(J: Job, s: State, k: nat, i: nat, w': Worker)
    requires J.st.Valid() && Target(J, s, k) && i < |s.ws| && Extends(s.ws[i], w')
    ensures Target(J, s.(ws := s.ws[i := w']), k)
  {
    hide Stream.IsRun, RunEnd;
    var s' := s.(ws := s.ws[i := w']);
    assert s'.ws[k].made[..s'.ws[k].taken] == s.ws[k].made[..s.ws[k].taken];
    if s.cur < k {
      var j :| 0 <= j < s.cur && Handoff(s, j, k);
      SkippedSame(s'.ws, s.ws, j);
      assert Handoff(s', j, k);
    }
  }

  /** A step that changes one worker only. */
  lemma ChangeKeeps(J: Job, s: State, i: nat, w': Worker)
    requires J.st.Valid() && Inv(J, s) && s.status.Running? && i < |s.ws|
    requires WorkerOk(J, w') && Extends(s.ws[i], w')
    requires Reads(w') ==> w'.next < |s.ws| && ReadOk(J, w', s.ws[w'.next])
    requires Synced(w') ==> Synced(s.ws[i]) || (w'.next < |s.ws| && HandOk(w', s.ws[w'.next]))
    requires SyncOk(s.ws[i]) ==> SyncOk(w')
    ensures Inv(J, s.(ws := s.ws[i := w']))
  {
    hide WorkerOk, Extends, SyncOk, Target, Links, Reading, Handed, ReadOk;
    LinksLocal(s.ws, i, w');
    ReadingLocal(J, s.ws, i, w');
    HandedLocal(s.ws, s.cur, i, w');
    var k: nat :| Target(J, s, k);
    TargetLocal(J, s, k, i, w');
    var s' := s.(ws := s.ws[i := w']);
    assert AllOk(J, s'.ws) && AllSync(s'.ws, s'.cur);
  }

  lemma LocalKeeps(J: Job, s: State, a: Action)
    requires J.Valid() && Inv(J, s) && IsLocal(a) && J.Enabled(s, a)
    ensures Inv(J, J.Apply(s, a))
  {
    hide WorkerOk, Extends, SyncOk, Target, Links, Reading, Handed, Job.Local, ReadOk;
    LocalKeepsWorker(J, s, a);
    LocalPc(J, s, a);
    ChangeKeeps(J, s, a.i, J.Local(s, a));
  }

  lemma LocalPc(J: Job, s: State, a: Action)
    requires J.st.Valid() && Links(s.ws) && IsLocal(a) && J.Enabled(s, a)
    ensures var w' := J.Local(s, a);
            && (Reads(w') ==> w'.next < |s.ws| && ReadOk(J, w', s.ws[w'.next]))
            && (Synced(w') ==> Synced(s.ws[a.i]))
            && (SyncOk(s.ws[a.i]) ==> SyncOk(w'))
  {
    hide Stream.ChunkAt;
  }

  // ---------- receiving from the next worker's bucket ----------

  /** Only the nearest live worker before j may read j's bucket. */
  lemma Exclusive(ws: seq<Worker>, i: nat, l: nat)
    requires Links(ws) && i < |ws| && !ws[i].Done() && ws[i].next < |ws|
    requires l < |ws| && l != i && ws[l].next == ws[i].next
    ensures ws[l].Done() && Skipped(ws, l)
  {
    assert l < ws[i].next;
    if l < i {
      assert false;
    }
  }

  /** A receive: i moves on, and its next worker loses the head of its bucket (or its sync). */
  predicate IsReceive(ws: seq<Worker>, i: nat, w': Worker, x': Worker) {
    && i < |ws| && Reads(ws[i]) && i < ws[i].next < |ws|
    && w' == ws[i].(pc := w'.pc) && !w'.Stopped()
    && var x := ws[ws[i].next];
       x' == x.(sync := x'.sync, taken := x'.taken) && x.taken <= x'.taken && (x.Drained() ==> x'.taken == x.taken)
  }

  lemma LinksReceive(ws: seq<Worker>, i: nat, w': Worker, x': Worker)
    requires Links(ws) && IsReceive(ws, i, w', x')
    ensures Links(ws[i := w'][ws[i].next := x'])
  {
  }

  lemma ReadingReceive(J: Job, ws: seq<Worker>, i: nat, w': Worker, x': Worker)
    requires Links(ws) && Reading(J, ws) && IsReceive(ws, i, w', x')
    requires Reads(w') ==> ReadOk(J, w', x')
    ensures Reading(J, ws[i := w'][ws[i].next := x'])
  {
    var j := ws[i].next;
    var ws' := ws[i := w'][j := x'];
    forall l: nat | l < |ws'| && Reads(ws'[l])
      ensures ws'[l].next < |ws'| && ReadOk(J, ws'[l], ws'[ws'[l].next])
    {
      if l != i {
        assert Reads(ws[l]) && ReadOk(J, ws[l], ws[ws[l].next]);
        if ws[l].next == j { Exclusive(ws, i, l); }
      }
    }
  }

  lemma HandedReceive(ws: seq<Worker>, cur: nat, i: nat, w': Worker, x': Worker)
    requires Links(ws) && Handed(ws, cur) && IsReceive(ws, i, w', x')
    ensures Handed(ws[i := w'][ws[i].next := x'], cur)
  {
    hide Links;
    var j := ws[i].next;
    var ws' := ws[i := w'][j := x'];
    forall l: nat | cur <= l < |ws'| && l != i && Synced(ws'[l])
      ensures ws'[l].next < |ws'| && |ws'[l].made| > 0 && (Skipped(ws', l) || HandOk(ws'[l], ws'[ws'[l].next]))
    {
      assert Synced(ws[l]);
      SkippedSame(ws, ws', l);
      if ws[l].next == j { Exclusive(ws, i, l); }
    }
    assert !Synced(ws'[i]);
  }

  lemma TargetReceive(J: Job, s: State, k: nat, i: nat, w': Worker, x': Worker)
    requires J.st.Valid() && Target(J, s, k) && IsReceive(s.ws, i, w', x')
    ensures s.cur <= i && Target(J, s.(ws := s.ws[i := w'][s.ws[i].next := x']), k)
  {
    hide Stream.IsRun, RunEnd;
    var s' := s.(ws := s.ws[i := w'][s.ws[i].next := x']);
    assert k <= i && s.ws[i].next != k;
    assert s'.ws[k].made == s.ws[k].made && s'.ws[k].taken == s.ws[k].taken;
    if s.cur < k {
      var j :| 0 <= j < s.cur && Handoff(s, j, k);
      SkippedSame(s'.ws, s.ws, j);
      assert Handoff(s', j, k);
    }
  }

  lemma ReceiveKeeps(J: Job, s: State, i: nat, w': Worker, x': Worker)
    requires J.st.Valid() && Inv(J, s) && s.status.Running? && IsReceive(s.ws, i, w', x')
    requires WorkerOk(J, w') && WorkerOk(J, x') && SyncOk(x')
    requires Reads(w') ==> ReadOk(J, w', x')
    ensures Inv(J, s.(ws := s.ws[i := w'][s.ws[i].next := x']))
  {
    hide WorkerOk, Target, Links, Reading, Handed, ReadOk;
    var k: nat :| Target(J, s, k);
    LinksReceive(s.ws, i, w', x');
    ReadingReceive(J, s.ws, i, w', x');
    HandedReceive(s.ws, s.cur, i, w', x');
    TargetReceive(J, s, k, i, w', x');
    var s' := s.(ws := s.ws[i := w'][s.ws[i].next := x']);
    assert Target(J, s', k);
    assert AllOk(J, s'.ws) && AllSync(s'.ws, s'.cur);
  }

  lemma PopOk(J: Job, x: Worker)
    requires J.st.Valid() && WorkerOk(J, x) && x.taken < |x.made|
    ensures WorkerOk(J, x.Pop()) && SyncOk(x.Pop())
  {
    hide Stream.IsRun, NullSeen;
  }

  lemma ActiveIsAhead(J: Job, s: State, i: nat)
    requires J.st.Valid() && Inv(J, s) && i < |s.ws| && !s.ws[i].Done()
    ensures s.cur <= i
  {
    hide AllOk, AllSync, Links, Reading, Handed, Stream.IsRun;
  }

  /** What a worker inside syncWith may rely on. */
  lemma ReaderFacts(J: Job, s: State, i: nat)
    requires J.st.Valid() && Inv(J, s) && i < |s.ws| && (s.ws[i].pc.Sync? || s.ws[i].pc.Count?)
    ensures var w, j := s.ws[i], s.ws[i].next;
            i < j < |s.ws| && WorkerOk(J, w) && WorkerOk(J, s.ws[j]) && ReadOk(J, w, s.ws[j]) && SyncOk(s.ws[j])
  {
    hide WorkerOk, ReadOk, SyncOk, Handed, Target;
    ActiveIsAhead(J, s, i);
    assert Reads(s.ws[i]);
  }

  lemma PcKeeps(J: Job, s: State, i: nat, pc: Pc)
    requires J.st.Valid() && Inv(J, s) && s.status.Running? && i < |s.ws| && !s.ws[i].Stopped()
    requires pc.Check? || pc.Count? || pc.Jump?
    requires WorkerOk(J, s.ws[i].(pc := pc))
    requires pc.Count? ==> s.ws[i].next < |s.ws| && ReadOk(J, s.ws[i].(pc := pc), s.ws[s.ws[i].next])
    ensures Inv(J, s.(ws := s.ws[i := s.ws[i].(pc := pc)]))
  {
    hide WorkerOk, ReadOk, Inv;
    ChangeKeeps(J, s, i, s.ws[i].(pc := pc));
  }

  lemma InSyncKeeps(J: Job, s: State, i: nat)
    requires J.st.Valid() && Inv(J, s) && J.Enabled(s, SyncStep(i))
    requires var x, chunk := s.ws[s.ws[i].next], s.ws[i].pc.chunk;
             chunk.start == x.sync.start && chunk.size == x.sync.size
    ensures Inv(J, s.(ws := s.ws[i := s.ws[i].(pc := Stopping)]))
  {
    hide Inv, WorkerOk, ReadOk, SyncOk, HandOk;
    ReaderFacts(J, s, i);
    var w, x := s.ws[i], s.ws[s.ws[i].next];
    InSyncHand(J, w, x);
    ChangeKeeps(J, s, i, w.(pc := Stopping));
  }

  /** Equal start and size mean equal chunks, so the next worker can carry on from here. */
  lemma InSyncHand(J: Job, w: Worker, x: Worker)
    requires J.st.Valid() && WorkerOk(J, w) && WorkerOk(J, x) && SyncOk(x) && w.pc.Sync?
    requires w.pc.chunk.start == x.sync.start && w.pc.chunk.size == x.sync.size
    ensures var w' := w.(pc := Stopping);
            WorkerOk(J, w') && Extends(w, w') && HandOk(w', x) && (SyncOk(w) ==> SyncOk(w'))
  {
    hide Stream.IsRun, NullSeen;
    RunElem(J, w, |w.made| - 1);
    assert x.sync != NO_CHUNK;
    RunElem(J, x, x.taken - 1);
  }

  lemma SyncPopRead(J: Job, w: Worker, x: Worker)
    requires w.pc.Sync? && SyncOk(x) && w.pc.chunk.start > x.sync.start && x.taken < |x.made|
    ensures ReadOk(J, w.(pc := Sync(w.pc.chunk, x.sync)), x.Pop())
  {
  }

  /** The receives and the look of syncWith's first loop. */
  lemma SyncKeeps(J: Job, s: State, i: nat)
    requires J.Valid() && Inv(J, s) && J.Enabled(s, SyncStep(i))
    ensures Inv(J, J.SyncWith(s, i))
  {
    hide Inv, Stream.IsRun, NullSeen;
    ReaderFacts(J, s, i);
    var w, j := s.ws[i], s.ws[i].next;
    var x, chunk := s.ws[j], w.pc.chunk;
    if chunk.start > x.sync.start {
      if x.taken < |x.made| {
        PopOk(J, x);
        SyncPopRead(J, w, x);
        ReceiveKeeps(J, s, i, w.(pc := Sync(chunk, x.sync)), x.Pop());
      } else if x.pc.Closed? {
        ReceiveKeeps(J, s, i, w.(pc := Check), x.(sync := NO_CHUNK));
      } else {
        PcKeeps(J, s, i, Check);
      }
    } else if chunk.start == x.sync.start && chunk.size == x.sync.size {
      InSyncKeeps(J, s, i);
    } else if x.sync.id == J.NullID() && w.pc.prev.id == J.NullID() {
      CountBegins(J, x, chunk);
      PcKeeps(J, s, i, Count(chunk, w.pc.prev.End() - chunk.start));
    } else {
      PcKeeps(J, s, i, Check);
    }
  }

  /** The receives of syncWith's second loop. */
  lemma CountKeeps(J: Job, s: State, i: nat)
    requires J.Valid() && Inv(J, s) && J.Enabled(s, CountStep(i))
    ensures Inv(J, J.CountNulls(s, i))
  {
    hide Inv, Stream.IsRun, NullSeen;
    ReaderFacts(J, s, i);
    var w, j := s.ws[i], s.ws[i].next;
    var x, chunk, n := s.ws[j], w.pc.chunk, w.pc.n;
    if x.taken < |x.made| {
      PopOk(J, x);
      if x.made[x.taken].id == J.NullID() {
        CountGrows(J, x, chunk, n);
        ReceiveKeeps(J, s, i, w.(pc := Count(chunk, n + J.st.p.max)), x.Pop());
      } else {
        ReceiveKeeps(J, s, i, w.(pc := Jump(chunk, n)), x.Pop());
      }
    } else if x.pc.Closed? {
      ReceiveKeeps(J, s, i, w.(pc := Jump(chunk, n)), x.(sync := NO_CHUNK));
    } else {
      PcKeeps(J, s, i, Jump(chunk, n));
    }
  }

  // ---------- stepping past a finished neighbour ----------

  lemma LinksSkip(ws: seq<Worker>, i: nat, w': Worker)
    requires Links(ws) && i < |ws| && !ws[i].Done() && ws[i].next < |ws|
    requires ws[ws[i].next].Done() && ws[ws[i].next].Drained()
    requires w' == ws[i].(next := ws[ws[i].next].next, pc := Top)
    ensures Links(ws[i := w'])
  {
  }

  lemma ReadingSkip(J: Job, ws: seq<Worker>, i: nat, w': Worker)
    requires Reading(J, ws) && i < |ws| && ws[i].pc.CheckLen? && w' == ws[i].(next := w'.next, pc := Top)
    ensures Reading(J, ws[i := w'])
  {
    var ws' := ws[i := w'];
    forall l: nat | l < |ws'| && Reads(ws'[l])
      ensures ws'[l].next < |ws'| && ReadOk(J, ws'[l], ws'[ws'[l].next])
    {
      assert Reads(ws[l]) && ReadOk(J, ws[l], ws[ws[l].next]);
    }
  }

  lemma HandedSkip(ws: seq<Worker>, cur: nat, i: nat, w': Worker)
    requires Handed(ws, cur) && i < |ws| && ws[i].pc.CheckLen?
    requires w' == ws[i].(next := w'.next, pc := Top) && w'.next >= ws[i].next
    ensures Handed(ws[i := w'], cur)
  {
    var ws' := ws[i := w'];
    forall l: nat | cur <= l < |ws'| && Synced(ws'[l])
      ensures ws'[l].next < |ws'| && |ws'[l].made| > 0 && (Skipped(ws', l) || HandOk(ws'[l], ws'[ws'[l].next]))
    {
      assert Synced(ws[l]);
      SkippedSame(ws, ws', l);
    }
  }

  lemma TargetSkip(J: Job, s: State, k: nat, i: nat, w': Worker)
    requires J.st.Valid() && Target(J, s, k) && i < |s.ws| && s.ws[i].pc.CheckLen?
    requires w' == s.ws[i].(next := w'.next, pc := Top)
    ensures Target(J, s.(ws := s.ws[i := w']), k)
  {
    hide Stream.IsRun, RunEnd;
    var s' := s.(ws := s.ws[i := w']);
    assert k <= i;
    if s.cur < k {
      var j :| 0 <= j < s.cur && Handoff(s, j, k);
      assert !Skipped(s'.ws, j);
      assert Handoff(s', j, k);
    }
  }

  lemma SkipFacts(J: Job, s: State, i: nat)
    requires J.st.Valid() && Inv(J, s) && i < |s.ws| && s.ws[i].pc.CheckLen?
    ensures i < s.ws[i].next < |s.ws| && s.ws[s.ws[i].next].next > s.ws[i].next
    ensures s.ws[s.ws[i].next].Done() && WorkerOk(J, s.ws[i])
  {
    hide WorkerOk, AllSync, Handed, Target;
    assert Reads(s.ws[i]) && ReadOk(J, s.ws[i], s.ws[s.ws[i].next]);
  }

  lemma SkipWorker(J: Job, w: Worker, next: nat)
    requires J.st.Valid() && WorkerOk(J, w) && w.pc.CheckLen?
    ensures WorkerOk(J, w.(next := next, pc := Top))
  {
    hide Stream.IsRun, NullSeen, Stream.Zeros;
  }

  lemma SkipDrained(J: Job, s: State, i: nat, w': Worker)
    requires J.st.Valid() && s.status.Running? && i < |s.ws| && s.ws[i].pc.CheckLen?
    requires s.ws[i].next < |s.ws| && s.ws[s.ws[i].next].Drained() && Inv(J, s)
    requires w' == s.ws[i].(next := s.ws[s.ws[i].next].next, pc := Top)
    ensures Inv(J, s.(ws := s.ws[i := w']))
  {
    hide WorkerOk, Target, Links, Reading, Handed, ReadOk;
    SkipFacts(J, s, i);
    SkipWorker(J, s.ws[i], w'.next);
    LinksSkip(s.ws, i, w');
    ReadingSkip(J, s.ws, i, w');
    HandedSkip(s.ws, s.cur, i, w');
    var k: nat :| Target(J, s, k);
    TargetSkip(J, s, k, i, w');
    var s' := s.(ws := s.ws[i := w']);
    assert Target(J, s', k) && AllOk(J, s'.ws) && AllSync(s'.ws, s'.cur);
  }

  lemma SkipKeeps(J: Job, s: State, i: nat)
    requires J.Valid() && Inv(J, s) && J.Enabled(s, SkipStep(i))
    ensures Inv(J, J.Apply(s, SkipStep(i)))
  {
    hide WorkerOk, ReadOk, Inv;
    SkipFacts(J, s, i);
    var w, x := s.ws[i], s.ws[s.ws[i].next];
    if x.Drained() {
      SkipDrained(J, s, i, w.(next := x.next, pc := Top));
    } else {
      SkipWorker(J, w, w.next);
      ChangeKeeps(J, s, i, w.(next := w.next, pc := Top));
      assert w.(next := w.next, pc := Top) == w.(pc := Top);
    }
  }

  // ---------- the collector ----------

  lemma CollectKeeps(J: Job, s: State)
    requires J.Valid() && Inv(J, s) && J.Enabled(s, Collect)
    ensures Inv(J, J.CollectChunk(s))
  {
    hide WorkerOk, Links, Reading, Handed, Stream.IsRun, RunEnd;
    var k: nat :| Target(J, s, k);
    var x := s.ws[s.cur];
    assert k == s.cur && WorkerOk(J, x);
    CollectTarget(J, s);
    CollectWorker(J, x);
    CollectReading(J, s.ws, s.cur, x.(taken := x.taken + 1));
    CollectHanded(s.ws, s.cur, x.(taken := x.taken + 1));
    hide Target;
    var s' := J.CollectChunk(s);
    assert Target(J, s', s.cur);
    assert AllOk(J, s'.ws) && AllSync(s'.ws, s'.cur);
  }

  lemma CollectWorker(J: Job, x: Worker)
    requires J.st.Valid() && WorkerOk(J, x) && x.taken < |x.made|
    ensures WorkerOk(J, x.(taken := x.taken + 1))
  {
    hide Stream.IsRun, NullSeen;
  }

  lemma CollectTarget(J: Job, s: State)
    requires J.Valid() && Target(J, s, s.cur) && J.Enabled(s, Collect) && WorkerOk(J, s.ws[s.cur])
    ensures Target(J, J.CollectChunk(s), s.cur)
  {
    hide Stream.IsRun, Stream.ChunkAt, WorkerOk;
    var x, s' := s.ws[s.cur], J.CollectChunk(s);
    RunElem(J, x, x.taken);
    J.st.RunSnoc(s.out, 0, x.made[x.taken]);
    assert x.made[..x.taken + 1][x.taken] == x.made[x.taken];
  }

  lemma CollectReading(J: Job, ws: seq<Worker>, cur: nat, x': Worker)
    requires Links(ws) && Reading(J, ws) && cur < |ws|
    requires x' == ws[cur].(taken := ws[cur].taken + 1) && !ws[cur].Drained()
    requires forall j :: 0 <= j < cur ==> ws[j].pc.Closed?
    ensures Links(ws[cur := x']) && Reading(J, ws[cur := x'])
  {
    var ws' := ws[cur := x'];
    forall l: nat | l < |ws'| && Reads(ws'[l])
      ensures ws'[l].next < |ws'| && ReadOk(J, ws'[l], ws'[ws'[l].next])
    {
      hide ReadOk;
      assert Reads(ws[l]) && cur <= l < ws[l].next < |ws|;
      assert ReadOk(J, ws[l], ws[ws[l].next]);
      if l == cur { SameRead(J, ws[cur], x', ws[ws[l].next]); }
    }
  }

  lemma SameRead(J: Job, w: Worker, w': Worker, x: Worker)
    requires w.pc == w'.pc && ReadOk(J, w, x)
    ensures ReadOk(J, w', x)
  {
  }

  lemma CollectHanded(ws: seq<Worker>, cur: nat, x': Worker)
    requires Links(ws) && Handed(ws, cur) && cur < |ws|
    requires x' == ws[cur].(taken := ws[cur].taken + 1)
    ensures Handed(ws[cur := x'], cur)
  {
    var ws' := ws[cur := x'];
    forall l: nat | cur <= l < |ws'| && Synced(ws'[l])
      ensures ws'[l].next < |ws'| && |ws'[l].made| > 0 && (Skipped(ws', l) || HandOk(ws'[l], ws'[ws'[l].next]))
    {
      assert Synced(ws[l]) && ws[l].next > cur;
      SkippedSame(ws, ws', l);
    }
  }

  /** Leaving a worker that was stepped over: it held nothing. */
  lemma LeaveGap(J: Job, s: State, k: nat)
    requires J.st.Valid() && Target(J, s, k) && s.cur < k && s.ws[s.cur].pc.Closed?
    ensures Target(J, s.(cur := s.cur + 1), k)
  {
    hide Stream.IsRun, RunEnd;
    var j :| 0 <= j < s.cur && Handoff(s, j, k);
    assert Handoff(s.(cur := s.cur + 1), j, k);
  }

  /** Leaving the worker that was read: the one it synced with continues. */
  lemma LeaveSynced(J: Job, s: State, k: nat)
    requires J.st.Valid() && Target(J, s, k) && s.cur == k && s.ws[k].pc.Closed? && s.ws[k].Drained()
    requires Links(s.ws) && Handed(s.ws, k) && Synced(s.ws[k])
    ensures Target(J, s.(cur := k + 1), s.ws[k].next)
  {
    hide Stream.IsRun;
    var w, s' := s.ws[k], s.(cur := k + 1);
    assert !Skipped(s.ws, k);
    var x := s.ws[w.next];
    assert HandOk(w, x);
    HandEnds(w, x);
    LeaveGapFacts(s.ws, k);
    hide HandOk, RunEnd, Links, Handed;
    assert Handoff(s', k, w.next);
  }

  lemma HandEnds(w: Worker, x: Worker)
    requires HandOk(w, x) && w.Drained()
    ensures RunEnd(w.made[..w.taken], w.offset) == w.End() == RunEnd(x.made[..x.taken], x.offset)
  {
    assert w.made[..w.taken] == w.made;
  }

  lemma LeaveGapFacts(ws: seq<Worker>, k: nat)
    requires Links(ws) && k < |ws| && ws[k].next < |ws| && forall j :: 0 <= j < k ==> ws[j].next <= k
    ensures forall j :: k < j < ws[k].next ==> ws[j].Done() && ws[j].Drained()
    ensures forall j :: 0 <= j < ws[k].next ==> ws[j].next <= ws[k].next
  {
  }

  lemma LeaveKeeps(J: Job, s: State)
    requires J.Valid() && Inv(J, s) && J.Enabled(s, Leave)
    ensures Inv(J, J.LeaveWorker(s))
  {
    hide AllOk, Links, Reading, Target;
    var k: nat :| Target(J, s, k);
    var x, s' := s.ws[s.cur], J.LeaveWorker(s);
    TargetRange(J, s, k);
    if !x.err && !x.eof {
      var k': nat := if s.cur < k then k else x.next;
      if s.cur < k { LeaveGap(J, s, k); } else { LeaveSynced(J, s, k); }
      TargetRange(J, s.(cur := s.cur + 1), k');
      assert Target(J, s', k') && Handed(s'.ws, s'.cur) && AllSync(s'.ws, s'.cur);
    } else {
      TargetStatus(J, s, s'.status, k);
      assert Target(J, s', k);
    }
  }

  lemma TargetRange(J: Job, s: State, k: nat)
    requires J.st.Valid() && Target(J, s, k)
    ensures s.cur <= k < |s.ws|
  {
    hide Stream.IsRun;
  }

  lemma TargetStatus(J: Job, s: State, status: Status, k: nat)
    requires J.st.Valid() && Target(J, s, k)
    ensures Target(J, s.(status := status), k)
  {
    hide Stream.IsRun, RunEnd;
    if s.cur < k {
      var j :| 0 <= j < s.cur && Handoff(s, j, k);
      assert Handoff(s.(status := status), j, k);
    }
  }

  // ---------- every run ----------

  lemma StartInside(J: Job, n: nat, i: nat)
    requires J.st.Valid() && n > 0 && i < J.Workers(n)
    ensures J.Start(n, i) <= J.Size()
  {
    var m := J.Workers(n);
    SpanBound(J.Size(), m, i);
  }

  lemma SpanBound(size: nat, m: nat, i: nat)
    requires i < m
    ensures size / m * i <= size
  {
    var q := size / m;
    assert q * i <= q * m;
    assert m * q == size - size % m;
  }

  lemma InitKeeps(J: Job, n: nat)
    requires J.Valid() && n > 0
    ensures Inv(J, J.Initial(n))
  {
    var s := J.Initial(n);
    forall i | 0 <= i < |s.ws|
      ensures WorkerOk(J, s.ws[i])
    {
      StartInside(J, n, i);
      hide Job.Start;
    }
    hide WorkerOk, Job.Start;
    assert Target(J, s, 0);
  }

  lemma StepKeeps(J: Job, s: State, a: Action)
    requires J.Valid() && Inv(J, s) && J.Enabled(s, a)
    ensures Inv(J, J.Apply(s, a))
  {
    hide Inv, Job.Enabled, Job.Local, Job.SyncWith, Job.CountNulls, Job.CollectChunk, Job.LeaveWorker;
    match a
    case Collect => CollectKeeps(J, s);
    case Leave => LeaveKeeps(J, s);
    case SyncStep(i) => SyncKeeps(J, s, i);
    case CountStep(i) => CountKeeps(J, s, i);
    case SkipStep(i) => SkipKeeps(J, s, i);
    case _ => LocalKeeps(J, s, a);
  }

  lemma {:induction false} RunKeeps(J: Job, s: State, acts: seq<Action>, s': State)
    requires J.Valid() && Inv(J, s) && J.Reaches(s, acts, s')
    ensures Inv(J, s')
    decreases |acts|
  {
    hide Inv, Job.Enabled, Job.Apply;
    if acts != [] {
      StepKeeps(J, s, acts[0]);
      RunKeeps(J, J.Apply(s, acts[0]), acts[1..], s');
    }
  }

  /** In every interleaving the collected index is at all times a gap-free prefix of the single-stream chunk list. */
  lemma {:induction false} CollectedIsPrefix(J: Job, n: nat, acts: seq<Action>, s: State)
    requires J.Valid() && n > 0 && J.Reaches(J.Initial(n), acts, s)
    ensures s.out <= J.st.Chunks(0)
  {
    InitKeeps(J, n);
    RunKeeps(J, J.Initial(n), acts, s);
    var k: nat :| Target(J, s, k);
    J.st.RunIsPrefix(s.out, 0);
  }

  /** The worker at which the collector stopped had been stepped over by j, which handed over before the end of the file. */
  ghost predicate LostTail(J: Job, s: State) {
    exists j :: 0 <= j < s.cur && j < |s.ws| && s.cur < s.ws[j].next && !Skipped(s.ws, j) && s.ws[j].End() < J.Size()
  }

  /** A run that ends without error collects the whole list exactly when no tail was lost. */
  lemma {:induction false} CompleteIff(J: Job, n: nat, acts: seq<Action>, s: State)
    requires J.Valid() && n > 0 && J.Reaches(J.Initial(n), acts, s) && s.status.Finished?
    ensures s.out == J.st.Chunks(0) <==> !LostTail(J, s)
  {
    InitKeeps(J, n);
    RunKeeps(J, J.Initial(n), acts, s);
    var k: nat :| Target(J, s, k);
    WholeIffEnd(J, s);
    if s.cur == k {
      EndsAtEof(J, s, k);
    } else {
      LostIffBeforeEnd(J, s, k);
    }
  }

  lemma WholeIffEnd(J: Job, s: State)
    requires J.Valid() && J.st.IsRun(s.out, 0)
    ensures s.out == J.st.Chunks(0) <==> RunEnd(s.out, 0) == J.Size()
  {
    J.st.RunIsPrefix(s.out, 0);
    J.st.ChunksAreRun(0);
  }

  lemma EndsAtEof(J: Job, s: State, k: nat)
    requires J.Valid() && Inv(J, s) && Target(J, s, k) && s.cur == k && s.status.Finished?
    ensures RunEnd(s.out, 0) == J.Size() && !LostTail(J, s)
  {
    hide Stream.IsRun, Reading, Handed, AllSync, Links;
    var w := s.ws[k];
    assert WorkerOk(J, w) && w.made[..w.taken] == w.made;
  }

  lemma LostIffBeforeEnd(J: Job, s: State, k: nat)
    requires J.Valid() && Inv(J, s) && Target(J, s, k) && s.cur < k
    ensures RunEnd(s.out, 0) <= J.Size()
    ensures LostTail(J, s) <==> RunEnd(s.out, 0) < J.Size()
  {
    hide Inv, Stream.IsRun, RunEnd, Skipped;
    J.st.RunEndInside(s.out, 0);
    var j: nat :| 0 <= j < s.cur && Handoff(s, j, k);
    if LostTail(J, s) {
      var l: nat :| 0 <= l < s.cur && l < |s.ws| && s.cur < s.ws[l].next && !Skipped(s.ws, l) && s.ws[l].End() < J.Size();
      OneHandoff(s.ws, s.cur, j, l);
    }
  }

  lemma OneHandoff(ws: seq<Worker>, cur: nat, j: nat, l: nat)
    requires j < cur && l < cur <= |ws| && cur < ws[j].next && cur < ws[l].next
    requires !Skipped(ws, j) && !Skipped(ws, l)
    ensures j == l
  {
  }

  /** In particular the index is complete if no worker moved its `next` past a worker that had reached the end. */
  lemma {:induction false} CompleteUnlessEofSkipped(J: Job, n: nat, acts: seq<Action>, s: State)
    requires J.Valid() && n > 0 && J.Reaches(J.Initial(n), acts, s) && s.status.Finished?
    requires forall j, w :: 0 <= j < w < |s.ws| && w < s.ws[j].next ==> !s.ws[w].eof
    ensures s.out == J.st.Chunks(0)
  {
    InitKeeps(J, n);
    RunKeeps(J, J.Initial(n), acts, s);
    CompleteIff(J, n, acts, s);
  }

  lemma {:induction false} SameWorkers(J: Job, s: State, acts: seq<Action>, s': State)
    requires J.st.Valid() && J.Reaches(s, acts, s')
    ensures |s'.ws| == |s.ws|
    decreases |acts|
  {
    if acts != [] { SameWorkers(J, J.Apply(s, acts[0]), acts[1..], s'); }
  }

  /** With one or two workers nothing can be lost: who steps past the last worker has no one to hand over to. */
  lemma {:induction false} CompleteWithTwoWorkers(J: Job, n: nat, acts: seq<Action>, s: State)
    requires J.Valid() && n > 0 && J.Workers(n) <= 2 && J.Reaches(J.Initial(n), acts, s) && s.status.Finished?
    ensures s.out == J.st.Chunks(0)
  {
    hide Inv, Job.Reaches, Job.Initial;
    InitKeeps(J, n);
    InitialWorkers(J, n);
    RunKeeps(J, J.Initial(n), acts, s);
    SameWorkers(J, J.Initial(n), acts, s);
    CompleteIff(J, n, acts, s);
    var k := TargetOf(J, s);
    if s.cur == k {
      EndsAtEof(J, s, k);
    } else {
      HandoffBetween(J, s, k);
    }
  }

  lemma InitialWorkers(J: Job, n: nat)
    requires J.st.Valid() && n > 0
    ensures |J.Initial(n).ws| == J.Workers(n)
  {
  }

  lemma TargetOf(J: Job, s: State) returns (k: nat)
    requires J.st.Valid() && Inv(J, s)
    ensures Target(J, s, k) && s.cur <= k < |s.ws|
  {
    k :| Target(J, s, k);
    TargetRange(J, s, k);
  }

  /** The collector is ahead of its target only between two other workers. */
  lemma HandoffBetween(J: Job, s: State, k: nat)
    requires J.st.Valid() && Target(J, s, k) && s.cur < k < |s.ws|
    ensures |s.ws| >= 3
  {
    hide Stream.IsRun, RunEnd;
    var j: nat :| 0 <= j < s.cur && Handoff(s, j, k);
  }

  lemma AtWorker(J: Job, n: nat, acts: seq<Action>, s: State, i: nat)
    requires J.Valid() && n > 0 && J.Reaches(J.Initial(n), acts, s) && i < |s.ws|
    ensures WorkerOk(J, s.ws[i])
  {
    InitKeeps(J, n);
    RunKeeps(J, J.Initial(n), acts, s);
  }

  /** From `at` on, single-stream chunking gives k null chunks and goes on right after them. */
  ghost predicate NextAreNull(J: Job, at: nat, k: nat)
    requires J.st.Valid()
  {
    var end := at + Span(k, J.st.p.max);
    end <= J.Size() && J.st.Chunks(at) == NullChunks(J, at, k) + J.st.Chunks(end)
  }

  /** The number of null chunks that fit into n zero bytes. */
  function NumNullChunks(J: Job, n: nat): (k: nat)
    requires J.st.Valid()
    ensures Span(k, J.st.p.max) <= n < Span(k, J.st.p.max) + J.st.p.max
  {
    var k := n / J.st.p.max;
    FloorBound(n, J.st.p.max);
    SpanIsProduct(k, J.st.p.max);
    k
  }

  /** Workers are given up only if the file is too short to give each of them max bytes. */
  lemma WorkerCount(J: Job, n: nat)
    requires J.st.Valid() && n > 0
    ensures var m := J.Workers(n);
            && |J.Initial(n).ws| == m <= n && (m - 1) * J.st.p.max <= J.Size() && (m < n ==> J.Size() < m * J.st.p.max)
  {
    var max := J.st.p.max;
    var q := J.Size() / max;
    assert J.Size() == max * q + J.Size() % max;
    var m := J.Workers(n);
    if m == n && n - 1 < q { SpanOrder(n - 1, q, max); }
  }

  lemma SpanOrder(a: nat, b: nat, m: nat)
    requires a <= b
    ensures a * m <= b * m
  {
  }

  /** They start at 0 and at equal distances, and have made nothing. */
  lemma WorkersStart(J: Job, n: nat, i: nat)
    requires J.st.Valid() && n > 0 && i < J.Workers(n)
    ensures J.Start(n, 0) == 0 && (i + 1 < J.Workers(n) ==> J.Start(n, i + 1) - J.Start(n, i) == J.Size() / J.Workers(n))
    ensures var w := J.Initial(n).ws[i]; w.offset == w.pos == J.Start(n, i) && w.made == [] && w.next == i + 1 && w.pc == Top
  {
    var d := J.Size() / J.Workers(n);
    assert d * (i + 1) == d * i + d;
  }

  /**
   In every interleaving, when syncWith has reported n zero bytes, n zero bytes lie ahead of the
   worker, and the floor(n/max) null chunks it is about to emit are the next ones of single-stream chunking.
   */
  lemma {:induction false} ReportsAreReal(J: Job, n: nat, acts: seq<Action>, s: State, i: nat)
    requires J.Valid() && n > 0 && J.Reaches(J.Initial(n), acts, s) && i < |s.ws| && s.ws[i].pc.Jump?
    ensures var w := s.ws[i];
            && w.pc.n >= 0 && w.pos == w.End() == w.pc.chunk.End() && w.pc.chunk.id == J.NullID()
            && J.st.Zeros(w.End(), w.End() + w.pc.n)
            && NextAreNull(J, w.End(), NumNullChunks(J, w.pc.n))
  {
    hide Stream.IsRun, Job.Reaches, Stream.Chunks, Cut, NullSeen, NumNullChunks, RunEnd, Job.Initial;
    AtWorker(J, n, acts, s, i);
    var w := s.ws[i];
    ReportedZeros(J, w, w.pc.chunk, w.pc.n);
    LastEnd(J, w);
    SkippedChunksAreReal(J, w.End(), NumNullChunks(J, w.pc.n));
  }

  /** A report of n zero bytes makes the worker emit exactly the null chunks that fit, none if there are none, and move its chunker past them. */
  lemma {:induction false} JumpEmits(J: Job, n: nat, acts: seq<Action>, s: State, i: nat)
    requires J.Valid() && n > 0 && J.Reaches(J.Initial(n), acts, s) && i < |s.ws| && s.ws[i].pc.Jump? && s.status.Running?
    ensures s.ws[i].pc.n >= 0 && J.Enabled(s, JumpStep(i))
    ensures var k, w, w' := NumNullChunks(J, s.ws[i].pc.n), s.ws[i], J.Apply(s, JumpStep(i)).ws[i];
            w'.pos == w.End() + Span(k, J.st.p.max) && w'.made == w.made && w'.pc == if k > 0 then Emit(k) else Check
  {
    hide Stream.IsRun, Job.Reaches, Stream.Chunks, Cut, NullSeen, Job.Initial;
    AtWorker(J, n, acts, s, i);
    SpanIsProduct(s.ws[i].pc.n / J.st.p.max, J.st.p.max);
  }

  lemma LastEnd(J: Job, w: Worker)
    requires J.st.Valid() && WorkerOk(J, w) && |w.made| > 0
    ensures w.made[|w.made| - 1].End() == w.End()
  {
    RunElem(J, w, |w.made| - 1);
  }

  /** While it emits them, the null chunks still to come reach from the end of its bucket to where Advance has moved its chunker. */
  lemma {:induction false} EmittedChunksAreReal(J: Job, n: nat, acts: seq<Action>, s: State, i: nat)
    requires J.Valid() && n > 0 && J.Reaches(J.Initial(n), acts, s) && i < |s.ws| && s.ws[i].pc.Emit?
    ensures var w := s.ws[i];
            w.pos == w.End() + Span(w.pc.left, J.st.p.max) && NextAreNull(J, w.End(), w.pc.left)
  {
    hide Stream.IsRun, Job.Reaches, Stream.Chunks, Cut, NullSeen, RunEnd, Job.Initial;
    AtWorker(J, n, acts, s, i);
    var w := s.ws[i];
    if w.pc.left > 0 {
      SkippedChunksAreReal(J, w.End(), w.pc.left);
    }
  }
}
