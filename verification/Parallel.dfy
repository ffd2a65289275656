/**
 Parallel chunking: n workers chunk one file from different offsets, and a collector
 stitches their buckets together. Every atomic action of a worker or of the collector is
 one step, so a trace is an arbitrary interleaving.
 */
module Parallel {
  import opened Chunking

  /** The zero value of an index chunk, which `sync` and `prev` hold before any receive. */
  const NO_CHUNK := IndexChunk([], 0, 0)

  /** Where a worker stands in its loop, with the locals that are live there. */
  datatype Pc =
    | Top                                          // about to ask the chunker for a chunk
    | Sync(chunk: IndexChunk, prev: IndexChunk)    // first loop of next.syncWith(chunk)
    | Count(chunk: IndexChunk, n: int)             // second loop, counting zero bytes ahead
    | Jump(chunk: IndexChunk, n: int)              // syncWith returned (false, n)
    | Emit(left: nat)                              // writing null chunks to the bucket
    | Check                                        // asking whether next is still active
    | CheckLen                                     // next is not; asking whether its bucket is empty
    | Stopping                                     // returning from start
    | Closing                                      // done is closed, results is not
    | Closed

  /**
   A worker. Its bucket is everything it ever sent, `made`, of which the first `taken`
   were received. `next` is a worker number; the number of workers stands for nil.
   */
  datatype Worker = Worker(
    offset: nat, pos: nat, made: seq<IndexChunk>, taken: nat,
    sync: IndexChunk, next: nat, eof: bool, err: bool, pc: Pc)
  {
    predicate Done() { pc.Closing? || pc.Closed? }
    predicate Stopped() { pc.Stopping? || Done() }
    predicate Drained() { taken == |made| }
    function End(): nat { RunEnd(made, offset) }

    function Push(c: IndexChunk): Worker { this.(made := made + [c]) }
    function Pop(): Worker
      requires taken < |made|
    {
      this.(sync := made[taken], taken := taken + 1)
    }
  }

  datatype Status = Running | Finished | Failed

  datatype State = State(ws: seq<Worker>, cur: nat, out: seq<IndexChunk>, status: Status)

  datatype Action =
    | Produce(i: nat) | AtEnd(i: nat) | Fail(i: nat) | SyncStep(i: nat) | CountStep(i: nat)
    | JumpStep(i: nat) | EmitStep(i: nat) | CheckStep(i: nat) | SkipStep(i: nat)
    | Stop(i: nat) | Close(i: nat) | Collect | Leave

  datatype Job = Job(st: Stream) {
    function NullID(): ChunkID { st.digest(ZeroBytes(st.p.max)) }

    /** No other bytes share the null chunk's ID, and that ID is not the zero value. */
    ghost predicate Valid() {
      && st.Valid()
      && NullID() != NO_CHUNK.id
      && forall b :: st.digest(b) == NullID() ==> b == ZeroBytes(st.p.max)
    }

    function Size(): nat { |st.data| }

    // ---------- initial state ----------

    /** The worker count is lowered for files shorter than n*max bytes. */
    function Workers(n: nat): (m: nat)
      requires st.Valid() && n > 0
      ensures 0 < m <= n
    {
      Min(Size() / st.p.max + 1, n)
    }

    function Start(n: nat, i: nat): nat
      requires st.Valid() && n > 0
    {
      Size() / Workers(n) * i
    }

    function Initial(n: nat): State
      requires st.Valid() && n > 0
    {
      State(
        seq(Workers(n), (i: nat) => Worker(Start(n, i), Start(n, i), [], 0, NO_CHUNK, i + 1, false, false, Top)),
        0, [], Running)
    }

    // ---------- steps ----------

    /** The worker that owns the action, and the program counter it needs. */
    predicate Enabled(s: State, a: Action)
      requires st.Valid()
    {
      s.status.Running? &&
      match a
      case Produce(i) => i < |s.ws| && s.ws[i].pc.Top? && s.ws[i].pos < Size()
      case AtEnd(i) => i < |s.ws| && s.ws[i].pc.Top? && s.ws[i].pos >= Size()
      case Fail(i) => i < |s.ws| && (s.ws[i].pc.Top? || s.ws[i].pc.Jump?)
      case SyncStep(i) => i < |s.ws| && s.ws[i].pc.Sync? && s.ws[i].next < |s.ws|
      case CountStep(i) => i < |s.ws| && s.ws[i].pc.Count? && s.ws[i].next < |s.ws|
      case JumpStep(i) => i < |s.ws| && s.ws[i].pc.Jump? && s.ws[i].pc.n >= 0
      case EmitStep(i) => i < |s.ws| && s.ws[i].pc.Emit?
      case CheckStep(i) => i < |s.ws| && s.ws[i].pc.Check?
      case SkipStep(i) => i < |s.ws| && s.ws[i].pc.CheckLen? && s.ws[i].next < |s.ws|
      case Stop(i) => i < |s.ws| && s.ws[i].pc.Stopping?
      case Close(i) => i < |s.ws| && s.ws[i].pc.Closing?
      case Collect => s.cur < |s.ws| && s.ws[s.cur].taken < |s.ws[s.cur].made|
      case Leave => s.cur < |s.ws| && s.ws[s.cur].Drained() && s.ws[s.cur].pc.Closed?
    }

    function Apply(s: State, a: Action): State
      requires st.Valid() && Enabled(s, a)
    {
      match a
      case Collect => CollectChunk(s)
      case Leave => LeaveWorker(s)
      case SyncStep(i) => SyncWith(s, i)
      case CountStep(i) => CountNulls(s, i)
      case SkipStep(i) =>
        var w := s.ws[i];
        var w' := if s.ws[w.next].Drained() then w.(next := s.ws[w.next].next, pc := Top) else w.(pc := Top);
        s.(ws := s.ws[i := w'])
      case _ => s.(ws := s.ws[a.i := Local(s, a)])
    }

    /** Steps that touch nothing but the worker itself. */
    function Local(s: State, a: Action): Worker
      requires st.Valid() && Enabled(s, a)
      requires !a.Collect? && !a.Leave? && !a.SyncStep? && !a.CountStep? && !a.SkipStep?
    {
      var w := s.ws[a.i];
      match a
      case Produce(_) =>
        var c := st.ChunkAt(w.pos);
        w.Push(c).(pos := c.End(), pc := if w.next < |s.ws| then Sync(c, NO_CHUNK) else Check)
      case AtEnd(_) => w.(eof := true, pc := Stopping)
      case Fail(_) => w.(err := true, pc := Stopping)
      case JumpStep(_) =>
        var k := w.pc.n / st.p.max;
        if k > 0 then w.(pos := w.pos + k * st.p.max, pc := Emit(k)) else w.(pc := Check)
      case EmitStep(_) =>
        if w.pc.left == 0 then w.(pc := Check)
        else w.Push(IndexChunk(NullID(), w.End(), st.p.max)).(pc := Emit(w.pc.left - 1))
      case CheckStep(_) =>
        w.(pc := if w.next < |s.ws| && s.ws[w.next].Done() then CheckLen else Top)
      case Stop(_) => w.(pc := Closing)
      case Close(_) => w.(pc := Closed)
    }

    /** One turn of the first loop of syncWith, or what follows it. */
    function SyncWith(s: State, i: nat): State
      requires st.Valid() && Enabled(s, SyncStep(i))
    {
      var w, j := s.ws[i], s.ws[i].next;
      var x, chunk := s.ws[j], w.pc.chunk;
      if chunk.start > x.sync.start then
        if x.taken < |x.made| then
          s.(ws := s.ws[i := w.(pc := Sync(chunk, x.sync))][j := x.Pop()])
        else if x.pc.Closed? then
          s.(ws := s.ws[i := w.(pc := Check)][j := x.(sync := NO_CHUNK)])
        else
          s.(ws := s.ws[i := w.(pc := Check)])
      else if chunk.start == x.sync.start && chunk.size == x.sync.size then
        s.(ws := s.ws[i := w.(pc := Stopping)])
      else if x.sync.id == NullID() && w.pc.prev.id == NullID() then
        s.(ws := s.ws[i := w.(pc := Count(chunk, w.pc.prev.End() - chunk.start))])
      else
        s.(ws := s.ws[i := w.(pc := Check)])
    }

    /** One turn of the second loop of syncWith. */
    function CountNulls(s: State, i: nat): State
      requires st.Valid() && Enabled(s, CountStep(i))
    {
      var w, j := s.ws[i], s.ws[i].next;
      var x, chunk, n := s.ws[j], w.pc.chunk, w.pc.n;
      if x.taken < |x.made| then
        var pc := if x.made[x.taken].id == NullID() then Count(chunk, n + st.p.max) else Jump(chunk, n);
        s.(ws := s.ws[i := w.(pc := pc)][j := x.Pop()])
      else if x.pc.Closed? then
        s.(ws := s.ws[i := w.(pc := Jump(chunk, n))][j := x.(sync := NO_CHUNK)])
      else
        s.(ws := s.ws[i := w.(pc := Jump(chunk, n))])
    }

    function CollectChunk(s: State): State
      requires st.Valid() && Enabled(s, Collect)
    {
      var x := s.ws[s.cur];
      s.(out := s.out + [x.made[x.taken]], ws := s.ws[s.cur := x.(taken := x.taken + 1)])
    }

    function LeaveWorker(s: State): State
      requires st.Valid() && Enabled(s, Leave)
    {
      var x := s.ws[s.cur];
      if x.err then s.(status := Failed)
      else if x.eof || s.cur + 1 == |s.ws| then s.(status := Finished)
      else s.(cur := s.cur + 1)
    }

    /** Any interleaving: `acts` is a sequence of enabled actions that leads from s to s'. */
    ghost predicate Reaches(s: State, acts: seq<Action>, s': State)
      requires st.Valid()
      decreases |acts|
    {
      if acts == [] then s == s'
      else Enabled(s, acts[0]) && Reaches(Apply(s, acts[0]), acts[1..], s')
    }
  }
}
