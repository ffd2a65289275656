/**
 A run that loses the tail of the file: 6*max+1 zero bytes and four workers. Worker 1
 reaches the end of the file before worker 0 has caught up with it; worker 0 then drains
 worker 1's bucket, steps past it and hands over to worker 2, and the collector stops at
 worker 1 although worker 2 holds the last chunk.
 */
module ParallelExample {
  import opened Chunking
  import opened Parallel
  import opened ParallelProof

  const SIZE := 601

  function Zeros601(): Job {
    Job(Stream(Params(48, 100, _ => false), ZeroBytes(SIZE), b => b))
  }

  /** The chunk that starts at a: 100 zero bytes, or what is left. */
  function C(a: nat): IndexChunk
    requires a < SIZE
  {
    var n := Min(100, SIZE - a);
    IndexChunk(ZeroBytes(n), a, n)
  }

  lemma ChunkIs(a: nat)
    requires a < SIZE
    ensures Zeros601().st.Valid() && Zeros601().st.ChunkAt(a) == C(a)
  {
    var st := Zeros601().st;
    var n := Cut(st.p, st.data, a);
    assert n == Min(100, SIZE - a);
    assert st.data[a..a + n] == ZeroBytes(n);
  }

  lemma JobIsValid()
    ensures Zeros601().Valid()
  {
    var J := Zeros601();
    assert |J.NullID()| == 100;
  }

  /** Some interleaving leads from the start of IndexFromFile with four workers to s. */
  ghost predicate Reachable(s: State) {
    var J := Zeros601();
    J.st.Valid() && exists acts :: J.Reaches(J.Initial(4), acts, s)
  }

  lemma {:induction false} ReachSnoc(J: Job, s: State, acts: seq<Action>, s1: State, a: Action)
    requires J.st.Valid() && J.Reaches(s, acts, s1) && J.Enabled(s1, a)
    ensures J.Reaches(s, acts + [a], J.Apply(s1, a))
    decreases |acts|
  {
    hide Job.Enabled, Job.Apply;
    if acts == [] {
      assert acts + [a] == [a];
      assert J.Reaches(J.Apply(s, a), [a][1..], J.Apply(s, a));
    } else {
      ReachSnoc(J, J.Apply(s, acts[0]), acts[1..], s1, a);
      assert (acts + [a])[1..] == acts[1..] + [a];
    }
  }

  lemma Next(s: State, a: Action, s': State)
    requires Reachable(s) && Zeros601().Enabled(s, a) && s' == Zeros601().Apply(s, a)
    ensures Reachable(s')
  {
    hide Job.Enabled, Job.Apply;
    var J := Zeros601();
    var acts :| J.Reaches(J.Initial(4), acts, s);
    ReachSnoc(J, J.Initial(4), acts, s, a);
  }

  function Idle(i: nat): Worker {
    Worker(150 * i, 150 * i, [], 0, NO_CHUNK, i + 1, false, false, Top)
  }

  function Sys(w0: Worker, w1: Worker, w2: Worker, cur: nat, out: seq<IndexChunk>): State {
    State([w0, w1, w2, Idle(3)], cur, out, Running)
  }

  lemma Begin()
    ensures Reachable(Sys(Idle(0), Idle(1), Idle(2), 0, []))
  {
    var J := Zeros601();
    var s := J.Initial(4);
    assert J.Reaches(s, [], s);
    assert J.Workers(4) == 4;
    assert s.ws == [Idle(0), Idle(1), Idle(2), Idle(3)];
  }

  // ---------- worker 1 runs to the end of the file ----------

  /** One lap of worker 1 while worker 2 has produced nothing yet. */
  lemma Lap1(w0: Worker, w1: Worker, w2: Worker, c: IndexChunk, p: Worker)
    requires Reachable(Sys(w0, w1, w2, 0, []))
    requires w1.pc == Top && 0 < w1.pos < SIZE && w1.next == 2
    requires w2.made == [] && w2.taken == 0 && w2.sync == NO_CHUNK && !w2.Done()
    requires c == C(w1.pos) && p == w1.Push(c).(pos := c.End())
    ensures Reachable(Sys(w0, p, w2, 0, []))
  {
    ChunkIs(w1.pos);
    assert c.start > 0;
    hide Reachable, ZeroBytes, C, Cut, Stream.ChunkAt;
    Next(Sys(w0, w1, w2, 0, []), Produce(1), Sys(w0, p.(pc := Sync(c, NO_CHUNK)), w2, 0, []));
    Lap1Rest(w0, p, w2, c);
  }

  lemma Lap1Rest(w0: Worker, p: Worker, w2: Worker, c: IndexChunk)
    requires Reachable(Sys(w0, p.(pc := Sync(c, NO_CHUNK)), w2, 0, []))
    requires p.pc == Top && c.start > 0 && p.next == 2
    requires w2.made == [] && w2.taken == 0 && w2.sync == NO_CHUNK && !w2.Done()
    ensures Reachable(Sys(w0, p, w2, 0, []))
  {
    hide Reachable, ZeroBytes;
    Next(Sys(w0, p.(pc := Sync(c, NO_CHUNK)), w2, 0, []), SyncStep(1), Sys(w0, p.(pc := Check), w2, 0, []));
    Next(Sys(w0, p.(pc := Check), w2, 0, []), CheckStep(1), Sys(w0, p, w2, 0, []));
  }

  function M1(): seq<IndexChunk> { [C(150), C(250), C(350), C(450), C(550)] }

  /** Worker 1 after it has finished, with `taken` chunks received from its bucket. */
  function W1(taken: nat, sync: IndexChunk): Worker {
    Worker(150, SIZE, M1(), taken, sync, 2, true, false, Closed)
  }

  lemma CFacts(a: nat)
    requires a < SIZE
    ensures C(a).start == a && C(a).size == Min(100, SIZE - a)
    ensures C(a).id == Zeros601().NullID() <==> C(a).size == 100
    ensures Zeros601().NullID() != NO_CHUNK.id
  {
    assert |C(a).id| == C(a).size && |Zeros601().NullID()| == 100;
  }

  lemma Worker1Laps()
    ensures Reachable(Sys(Idle(0), W1(0, NO_CHUNK).(eof := false, pc := Top), Idle(2), 0, []))
  {
    hide Reachable, ZeroBytes;
    Begin();
    var w0, w2 := Idle(0), Idle(2);
    var a := Idle(1).(made := [C(150)], pos := 250);
    var b := a.(made := [C(150), C(250)], pos := 350);
    var c := b.(made := [C(150), C(250), C(350)], pos := 450);
    var d := c.(made := [C(150), C(250), C(350), C(450)], pos := 550);
    var e := d.(made := M1(), pos := SIZE);
    CFacts(150); CFacts(250); CFacts(350); CFacts(450); CFacts(550);
    hide Reachable, ZeroBytes, C;
    Lap1(w0, Idle(1), w2, C(150), a);
    Lap1(w0, a, w2, C(250), b);
    Lap1(w0, b, w2, C(350), c);
    Lap1(w0, c, w2, C(450), d);
    Lap1(w0, d, w2, C(550), e);
  }

  lemma Worker1Ends()
    ensures Reachable(Sys(Idle(0), W1(0, NO_CHUNK), Idle(2), 0, []))
  {
    hide Reachable, ZeroBytes;
    Worker1Laps();
    hide Reachable, ZeroBytes, M1;
    var w0, w2 := Idle(0), Idle(2);
    var a := W1(0, NO_CHUNK).(eof := false, pc := Top);
    Next(Sys(w0, a, w2, 0, []), AtEnd(1), Sys(w0, a.(eof := true, pc := Stopping), w2, 0, []));
    Next(Sys(w0, a.(eof := true, pc := Stopping), w2, 0, []), Stop(1), Sys(w0, a.(eof := true, pc := Closing), w2, 0, []));
    Next(Sys(w0, a.(eof := true, pc := Closing), w2, 0, []), Close(1), Sys(w0, W1(0, NO_CHUNK), w2, 0, []));
  }

  // ---------- worker 2 produces three chunks ----------

  lemma Lap2(w0: Worker, w1: Worker, w2: Worker, c: IndexChunk, p: Worker)
    requires Reachable(Sys(w0, w1, w2, 0, []))
    requires w2.pc == Top && 0 < w2.pos < SIZE && w2.next == 3
    requires c == C(w2.pos) && p == w2.Push(c).(pos := c.End())
    ensures Reachable(Sys(w0, w1, p, 0, []))
  {
    ChunkIs(w2.pos);
    assert c.start > 0;
    hide Reachable, ZeroBytes, C, Cut, Stream.ChunkAt;
    Next(Sys(w0, w1, w2, 0, []), Produce(2), Sys(w0, w1, p.(pc := Sync(c, NO_CHUNK)), 0, []));
    Lap2Rest(w0, w1, p, c);
  }

  lemma Lap2Rest(w0: Worker, w1: Worker, p: Worker, c: IndexChunk)
    requires Reachable(Sys(w0, w1, p.(pc := Sync(c, NO_CHUNK)), 0, []))
    requires p.pc == Top && c.start > 0 && p.next == 3
    ensures Reachable(Sys(w0, w1, p, 0, []))
  {
    hide Reachable, ZeroBytes;
    Next(Sys(w0, w1, p.(pc := Sync(c, NO_CHUNK)), 0, []), SyncStep(2), Sys(w0, w1, p.(pc := Check), 0, []));
    Next(Sys(w0, w1, p.(pc := Check), 0, []), CheckStep(2), Sys(w0, w1, p, 0, []));
  }

  function W2(taken: nat, sync: IndexChunk): Worker {
    Worker(300, 600, [C(300), C(400), C(500)], taken, sync, 3, false, false, Top)
  }

  lemma Worker2Runs()
    ensures Reachable(Sys(Idle(0), W1(0, NO_CHUNK), W2(0, NO_CHUNK), 0, []))
  {
    hide Reachable, ZeroBytes;
    Worker1Ends();
    var w0, w1 := Idle(0), W1(0, NO_CHUNK);
    var a := Idle(2).(made := [C(300)], pos := 400);
    var b := a.(made := [C(300), C(400)], pos := 500);
    CFacts(300); CFacts(400); CFacts(500);
    hide Reachable, ZeroBytes, C, M1;
    Lap2(w0, w1, Idle(2), C(300), a);
    Lap2(w0, w1, a, C(400), b);
    Lap2(w0, w1, b, C(500), W2(0, NO_CHUNK));
  }

  // ---------- worker 0 catches up with worker 1 ----------

  function W0(made: seq<IndexChunk>, pos: nat, next: nat, pc: Pc): Worker {
    Worker(0, pos, made, 0, NO_CHUNK, next, false, false, pc)
  }

  lemma Produce0(made: seq<IndexChunk>, pos: nat, next: nat, w1: Worker, w2: Worker)
    requires pos < SIZE && next < 4 && Reachable(Sys(W0(made, pos, next, Top), w1, w2, 0, []))
    ensures Reachable(Sys(W0(made + [C(pos)], C(pos).End(), next, Sync(C(pos), NO_CHUNK)), w1, w2, 0, []))
  {
    ChunkIs(pos);
    hide Reachable, ZeroBytes, C, Cut, Stream.ChunkAt;
    Next(Sys(W0(made, pos, next, Top), w1, w2, 0, []), Produce(0),
         Sys(W0(made + [C(pos)], C(pos).End(), next, Sync(C(pos), NO_CHUNK)), w1, w2, 0, []));
  }

  /** Worker 1 is done, but its bucket still holds something: worker 0 stays with it. */
  lemma Stay0(made: seq<IndexChunk>, pos: nat, w1: Worker, w2: Worker)
    requires w1.Done() && !w1.Drained() && Reachable(Sys(W0(made, pos, 1, Check), w1, w2, 0, []))
    ensures Reachable(Sys(W0(made, pos, 1, Top), w1, w2, 0, []))
  {
    hide Reachable, ZeroBytes;
    Next(Sys(W0(made, pos, 1, Check), w1, w2, 0, []), CheckStep(0), Sys(W0(made, pos, 1, CheckLen), w1, w2, 0, []));
    Next(Sys(W0(made, pos, 1, CheckLen), w1, w2, 0, []), SkipStep(0), Sys(W0(made, pos, 1, Top), w1, w2, 0, []));
  }

  /** A receive from worker 1's bucket in the first loop of syncWith. */
  lemma Receive0(made: seq<IndexChunk>, pos: nat, c: IndexChunk, prev: IndexChunk, t: nat, sync: IndexChunk, w2: Worker)
    requires t < 5 && c.start > sync.start
    requires Reachable(Sys(W0(made, pos, 1, Sync(c, prev)), W1(t, sync), w2, 0, []))
    ensures Reachable(Sys(W0(made, pos, 1, Sync(c, sync)), W1(t + 1, M1()[t]), w2, 0, []))
  {
    hide Reachable, ZeroBytes, C;
    Next(Sys(W0(made, pos, 1, Sync(c, prev)), W1(t, sync), w2, 0, []), SyncStep(0),
         Sys(W0(made, pos, 1, Sync(c, sync)), W1(t + 1, M1()[t]), w2, 0, []));
  }

  /** The look after the first loop: no match, and no two null chunks in a row. */
  lemma Look0(made: seq<IndexChunk>, pos: nat, c: IndexChunk, w1: Worker, w2: Worker)
    requires c.start <= w1.sync.start && !(c.start == w1.sync.start && c.size == w1.sync.size)
    requires Reachable(Sys(W0(made, pos, 1, Sync(c, NO_CHUNK)), w1, w2, 0, []))
    ensures Reachable(Sys(W0(made, pos, 1, Check), w1, w2, 0, []))
  {
    CFacts(0);
    hide Reachable, ZeroBytes, C;
    Next(Sys(W0(made, pos, 1, Sync(c, NO_CHUNK)), w1, w2, 0, []), SyncStep(0), Sys(W0(made, pos, 1, Check), w1, w2, 0, []));
  }

  lemma First0()
    ensures Reachable(Sys(W0([C(0)], 100, 1, Top), W1(0, NO_CHUNK), W2(0, NO_CHUNK), 0, []))
  {
    hide Reachable, ZeroBytes;
    Worker2Runs();
    Produce0([], 0, 1, W1(0, NO_CHUNK), W2(0, NO_CHUNK));
    CFacts(0);
    assert [] + [C(0)] == [C(0)];
    hide Reachable, ZeroBytes, C, M1, W2;
    Look0([C(0)], 100, C(0), W1(0, NO_CHUNK), W2(0, NO_CHUNK));
    M1Size();
    Stay0([C(0)], 100, W1(0, NO_CHUNK), W2(0, NO_CHUNK));
  }

  lemma M1Size()
    ensures |M1()| == 5
  {
  }

  lemma Second0()
    ensures Reachable(Sys(W0([C(0), C(100)], 200, 1, Top), W1(1, C(150)), W2(0, NO_CHUNK), 0, []))
  {
    hide Reachable, ZeroBytes;
    First0();
    var made, w2 := [C(0), C(100)], W2(0, NO_CHUNK);
    Produce0([C(0)], 100, 1, W1(0, NO_CHUNK), w2);
    assert [C(0)] + [C(100)] == made;
    CFacts(100); CFacts(150);
    hide Reachable, ZeroBytes, C, W2;
    Receive0(made, 200, C(100), NO_CHUNK, 0, NO_CHUNK, w2);
    Look0(made, 200, C(100), W1(1, C(150)), w2);
    Stay0(made, 200, W1(1, C(150)), w2);
  }

  /** The third chunk starts between two null chunks of worker 1: zero bytes are counted. */
  lemma Third0()
    ensures Reachable(Sys(W0([C(0), C(100), C(200)], 300, 1, Count(C(200), 50)), W1(2, C(250)), W2(0, NO_CHUNK), 0, []))
  {
    hide Reachable, ZeroBytes;
    Second0();
    var made, w2 := [C(0), C(100), C(200)], W2(0, NO_CHUNK);
    Produce0([C(0), C(100)], 200, 1, W1(1, C(150)), w2);
    assert [C(0), C(100)] + [C(200)] == made;
    CFacts(150); CFacts(200); CFacts(250);
    hide Reachable, ZeroBytes, C, W2;
    Receive0(made, 300, C(200), NO_CHUNK, 1, C(150), w2);
    Next(Sys(W0(made, 300, 1, Sync(C(200), C(150))), W1(2, C(250)), w2, 0, []), SyncStep(0),
         Sys(W0(made, 300, 1, Count(C(200), 50)), W1(2, C(250)), w2, 0, []));
  }

  lemma Count0(made: seq<IndexChunk>, c: IndexChunk, n: int, t: nat, sync: IndexChunk, w2: Worker, pc: Pc)
    requires t < 5 && Reachable(Sys(W0(made, 300, 1, Count(c, n)), W1(t, sync), w2, 0, []))
    requires pc == if M1()[t].id == Zeros601().NullID() then Count(c, n + 100) else Jump(c, n)
    ensures Reachable(Sys(W0(made, 300, 1, pc), W1(t + 1, M1()[t]), w2, 0, []))
  {
    hide Reachable, ZeroBytes, C;
    Next(Sys(W0(made, 300, 1, Count(c, n)), W1(t, sync), w2, 0, []), CountStep(0),
         Sys(W0(made, 300, 1, pc), W1(t + 1, M1()[t]), w2, 0, []));
  }

  lemma Counted0()
    ensures Reachable(Sys(W0([C(0), C(100), C(200)], 300, 1, Jump(C(200), 250)), W1(5, C(550)), W2(0, NO_CHUNK), 0, []))
  {
    hide Reachable, ZeroBytes;
    Third0();
    var made, w2 := [C(0), C(100), C(200)], W2(0, NO_CHUNK);
    CFacts(350); CFacts(450); CFacts(550);
    hide Reachable, ZeroBytes, C, W2;
    Count0(made, C(200), 50, 2, C(250), w2, Count(C(200), 150));
    Count0(made, C(200), 150, 3, C(350), w2, Count(C(200), 250));
    Count0(made, C(200), 250, 4, C(450), w2, Jump(C(200), 250));
  }

  /** Worker 0 skips ahead over two null chunks and past worker 1. */
  lemma Jump0(made: seq<IndexChunk>, c: IndexChunk, w1: Worker, w2: Worker, c1: IndexChunk, c2: IndexChunk)
    requires Reachable(Sys(W0(made, 300, 1, Jump(c, 250)), w1, w2, 0, []))
    requires c1 == IndexChunk(Zeros601().NullID(), RunEnd(made, 0), 100)
    requires c2 == IndexChunk(Zeros601().NullID(), c1.End(), 100)
    ensures Reachable(Sys(W0(made + [c1] + [c2], 500, 1, Check), w1, w2, 0, []))
  {
    hide Reachable, ZeroBytes, Job.NullID;
    Next(Sys(W0(made, 300, 1, Jump(c, 250)), w1, w2, 0, []), JumpStep(0), Sys(W0(made, 500, 1, Emit(2)), w1, w2, 0, []));
    Emit0(made, 2, c1, w1, w2);
    Emit0(made + [c1], 1, c2, w1, w2);
    Next(Sys(W0(made + [c1] + [c2], 500, 1, Emit(0)), w1, w2, 0, []), EmitStep(0),
         Sys(W0(made + [c1] + [c2], 500, 1, Check), w1, w2, 0, []));
  }

  lemma Jumped0()
    ensures Reachable(Sys(W0([C(0), C(100), C(200), C(300), C(400)], 500, 1, Check), W1(5, C(550)), W2(0, NO_CHUNK), 0, []))
  {
    hide Reachable, ZeroBytes;
    Counted0();
    var made := [C(0), C(100), C(200)];
    CFacts(200);
    EmitIs(300); EmitIs(400);
    assert made + [C(300)] + [C(400)] == [C(0), C(100), C(200), C(300), C(400)];
    hide Reachable, ZeroBytes, C, W2, W1, Job.NullID;
    Jump0(made, C(200), W1(5, C(550)), W2(0, NO_CHUNK), C(300), C(400));
  }

  lemma EmitIs(a: nat)
    requires a + 100 <= SIZE
    ensures C(a) == IndexChunk(Zeros601().NullID(), a, 100)
  {
  }

  lemma Emit0(made: seq<IndexChunk>, left: nat, c: IndexChunk, w1: Worker, w2: Worker)
    requires left > 0 && Reachable(Sys(W0(made, 500, 1, Emit(left)), w1, w2, 0, []))
    requires c == IndexChunk(Zeros601().NullID(), RunEnd(made, 0), 100)
    ensures Reachable(Sys(W0(made + [c], 500, 1, Emit(left - 1)), w1, w2, 0, []))
  {
    hide Reachable, ZeroBytes, Job.NullID;
    Next(Sys(W0(made, 500, 1, Emit(left)), w1, w2, 0, []), EmitStep(0), Sys(W0(made + [c], 500, 1, Emit(left - 1)), w1, w2, 0, []));
  }

  lemma StepPast0(made: seq<IndexChunk>, w1: Worker, w2: Worker)
    requires w1.Done() && w1.Drained() && w1.next == 2
    requires Reachable(Sys(W0(made, 500, 1, Check), w1, w2, 0, []))
    ensures Reachable(Sys(W0(made, 500, 2, Top), w1, w2, 0, []))
  {
    hide Reachable, ZeroBytes;
    Next(Sys(W0(made, 500, 1, Check), w1, w2, 0, []), CheckStep(0), Sys(W0(made, 500, 1, CheckLen), w1, w2, 0, []));
    Next(Sys(W0(made, 500, 1, CheckLen), w1, w2, 0, []), SkipStep(0), Sys(W0(made, 500, 2, Top), w1, w2, 0, []));
  }

  lemma Skipped0()
    ensures Reachable(Sys(W0([C(0), C(100), C(200), C(300), C(400)], 500, 2, Top), W1(5, C(550)), W2(0, NO_CHUNK), 0, []))
  {
    hide Reachable, ZeroBytes;
    Jumped0();
    M1Size();
    hide Reachable, ZeroBytes, C, W2, M1;
    StepPast0([C(0), C(100), C(200), C(300), C(400)], W1(5, C(550)), W2(0, NO_CHUNK));
  }

  // ---------- worker 0 hands over to worker 2 ----------

  function Six(): seq<IndexChunk> { [C(0), C(100), C(200), C(300), C(400), C(500)] }

  lemma Receive2(t: nat, prev: IndexChunk, sync: IndexChunk)
    requires t < 3 && sync.start < 500
    requires Reachable(Sys(W0(Six(), 600, 2, Sync(C(500), prev)), W1(5, C(550)), W2(t, sync), 0, []))
    ensures Reachable(Sys(W0(Six(), 600, 2, Sync(C(500), sync)), W1(5, C(550)), W2(t + 1, W2(t, sync).made[t]), 0, []))
  {
    CFacts(500);
    hide Reachable, ZeroBytes, C, Six, W1;
    Next(Sys(W0(Six(), 600, 2, Sync(C(500), prev)), W1(5, C(550)), W2(t, sync), 0, []), SyncStep(0),
         Sys(W0(Six(), 600, 2, Sync(C(500), sync)), W1(5, C(550)), W2(t + 1, W2(t, sync).made[t]), 0, []));
  }

  lemma Synced0()
    ensures Reachable(Sys(W0(Six(), 600, 2, Stopping), W1(5, C(550)), W2(3, C(500)), 0, []))
  {
    hide Reachable, ZeroBytes;
    Skipped0();
    Produce0([C(0), C(100), C(200), C(300), C(400)], 500, 2, W1(5, C(550)), W2(0, NO_CHUNK));
    assert [C(0), C(100), C(200), C(300), C(400)] + [C(500)] == Six();
    CFacts(300); CFacts(400); CFacts(500);
    hide Reachable, ZeroBytes, C, Six, W1, W0, Sys;
    Receive2(0, NO_CHUNK, NO_CHUNK);
    Receive2(1, NO_CHUNK, C(300));
    Receive2(2, C(300), C(400));
    Match2(Six(), C(500), C(400), W1(5, C(550)), W2(3, C(500)));
  }

  lemma Match2(made: seq<IndexChunk>, c: IndexChunk, prev: IndexChunk, w1: Worker, w2: Worker)
    requires w2.sync == c && Reachable(Sys(W0(made, 600, 2, Sync(c, prev)), w1, w2, 0, []))
    ensures Reachable(Sys(W0(made, 600, 2, Stopping), w1, w2, 0, []))
  {
    hide Reachable, ZeroBytes;
    Next(Sys(W0(made, 600, 2, Sync(c, prev)), w1, w2, 0, []), SyncStep(0), Sys(W0(made, 600, 2, Stopping), w1, w2, 0, []));
  }

  lemma Closed0()
    ensures Reachable(Sys(W0(Six(), 600, 2, Closed), W1(5, C(550)), W2(3, C(500)), 0, []))
  {
    hide Reachable, ZeroBytes;
    Synced0();
    hide Reachable, ZeroBytes, C, Six, W1, W2;
    var w1, w2 := W1(5, C(550)), W2(3, C(500));
    Next(Sys(W0(Six(), 600, 2, Stopping), w1, w2, 0, []), Stop(0), Sys(W0(Six(), 600, 2, Closing), w1, w2, 0, []));
    Next(Sys(W0(Six(), 600, 2, Closing), w1, w2, 0, []), Close(0), Sys(W0(Six(), 600, 2, Closed), w1, w2, 0, []));
  }

  // ---------- the collector ----------

  lemma {:induction false} CollectSix(t: nat)
    requires t <= 6
    ensures Reachable(Sys(W0(Six(), 600, 2, Closed).(taken := t), W1(5, C(550)), W2(3, C(500)), 0, Six()[..t]))
  {
    hide Reachable, ZeroBytes;
    Closed0();
    hide Reachable, ZeroBytes, C, W1, W2;
    var w1, w2, w0 := W1(5, C(550)), W2(3, C(500)), W0(Six(), 600, 2, Closed);
    if t > 0 {
      CollectSix(t - 1);
      assert Six()[..t] == Six()[..t - 1] + [Six()[t - 1]];
      Next(Sys(w0.(taken := t - 1), w1, w2, 0, Six()[..t - 1]), Collect, Sys(w0.(taken := t), w1, w2, 0, Six()[..t]));
    } else {
      assert Six()[..0] == [];
    }
  }

  /** A reachable state without error in which the last chunk of the file is missing. */
  lemma TailCanBeLost() returns (s: State)
    ensures Zeros601().Valid() && Reachable(s) && s.status.Finished?
    ensures s.out == Six() && s.out != Zeros601().st.Chunks(0)
  {
    hide Reachable, ZeroBytes;
    JobIsValid();
    CollectSix(6);
    var w1, w2, w0 := W1(5, C(550)), W2(3, C(500)), W0(Six(), 600, 2, Closed).(taken := 6);
    M1Size();
    s := State([w0, w1, w2, Idle(3)], 1, Six(), Finished);
    LeaveTwice(w0, w1, w2);
    MissingByte();
  }

  lemma LeaveTwice(w0: Worker, w1: Worker, w2: Worker)
    requires Reachable(Sys(w0, w1, w2, 0, Six()[..6]))
    requires w0.Drained() && w0.pc.Closed? && !w0.err && !w0.eof
    requires w1.Drained() && w1.pc.Closed? && !w1.err && w1.eof
    ensures Reachable(State([w0, w1, w2, Idle(3)], 1, Six(), Finished))
  {
    hide Reachable, ZeroBytes, C;
    assert Six()[..6] == Six();
    Next(Sys(w0, w1, w2, 0, Six()), Leave, Sys(w0, w1, w2, 1, Six()));
    Next(Sys(w0, w1, w2, 1, Six()), Leave, State([w0, w1, w2, Idle(3)], 1, Six(), Finished));
  }

  lemma MissingByte()
    ensures Zeros601().st.Valid() && Six() != Zeros601().st.Chunks(0)
  {
    var st := Zeros601().st;
    st.ChunksAreRun(0);
    CFacts(500);
    hide Stream.IsRun, Stream.Chunks, ZeroBytes, C;
    assert RunEnd(Six(), 0) == 600;
  }
}
