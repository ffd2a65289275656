/**
 Parallel chunking ends: every step brings every run closer to its end, a run that has not
 ended can go on, and only a worker's error makes it fail.
 */
module ParallelLive {
  import opened Chunking
  import opened Parallel
  import opened ParallelProof

  // ---------- what every step uses up ----------

  /** Where a worker stands within one round of its loop; it only ever moves down, except by producing a chunk. */
  function Rank(pc: Pc): nat {
    match pc
    case Sync(_, _) => 9
    case Count(_, _) => 8
    case Jump(_, _) => 7
    case Emit(_) => 6
    case Check => 5
    case CheckLen => 4
    case Top => 3
    case Stopping => 2
    case Closing => 1
    case Closed => 0
  }

  datatype Part = Bytes | Chunks | Steps

  /** The bytes a worker has not chunked, the chunks not taken from it or still to be emitted, its rank. */
  function Weight(J: Job, w: Worker, part: Part): nat {
    match part
    case Bytes => if w.pos <= J.Size() then J.Size() - w.pos else 0
    case Chunks => (if w.taken <= |w.made| then |w.made| - w.taken else 0) + (if w.pc.Emit? then 2 * w.pc.left else 0)
    case Steps => Rank(w.pc)
  }

  function Total(J: Job, ws: seq<Worker>, part: Part): nat {
    if ws == [] then 0 else Weight(J, ws[0], part) + Total(J, ws[1..], part)
  }

  lemma {:induction false} TotalUpdate(J: Job, ws: seq<Worker>, i: nat, w: Worker, part: Part)
    requires i < |ws|
    ensures Total(J, ws[i := w], part) == Total(J, ws, part) - Weight(J, ws[i], part) + Weight(J, w, part)
    decreases |ws|
  {
    hide Weight;
    var ws' := ws[i := w];
    if i == 0 {
      assert ws'[1..] == ws[1..];
    } else {
      assert ws'[1..] == ws[1..][i - 1 := w];
      TotalUpdate(J, ws[1..], i - 1, w, part);
    }
  }

  /** What is left to do, in order of importance. */
  function Left(J: Job, s: State): (nat, nat, nat) {
    (Total(J, s.ws, Bytes), Total(J, s.ws, Chunks),
     Total(J, s.ws, Steps) + (if s.cur <= |s.ws| then |s.ws| - s.cur else 0) + (if s.status.Running? then 1 else 0))
  }

  predicate Less(a: (nat, nat, nat), b: (nat, nat, nat)) {
    a.0 < b.0 || (a.0 == b.0 && (a.1 < b.1 || (a.1 == b.1 && a.2 < b.2)))
  }

  predicate LessWork(J: Job, w': Worker, w: Worker) {
    Less((Weight(J, w', Bytes), Weight(J, w', Chunks), Weight(J, w', Steps)), (Weight(J, w, Bytes), Weight(J, w, Chunks), Weight(J, w, Steps)))
  }

  /** One worker has less to do, another one no more. */
  lemma OneLess(J: Job, s: State, i: nat, w: Worker)
    requires i < |s.ws| && LessWork(J, w, s.ws[i])
    ensures Less(Left(J, s.(ws := s.ws[i := w])), Left(J, s))
  {
    hide Weight, Total;
    TotalUpdate(J, s.ws, i, w, Bytes);
    TotalUpdate(J, s.ws, i, w, Chunks);
    TotalUpdate(J, s.ws, i, w, Steps);
  }

  lemma TwoLess(J: Job, s: State, i: nat, w: Worker, j: nat, x: Worker)
    requires i < |s.ws| && j < |s.ws| && i != j
    requires Weight(J, w, Bytes) == Weight(J, s.ws[i], Bytes) && Weight(J, x, Bytes) == Weight(J, s.ws[j], Bytes)
    requires Weight(J, w, Chunks) == Weight(J, s.ws[i], Chunks) && Weight(J, x, Steps) == Weight(J, s.ws[j], Steps)
    requires || Weight(J, x, Chunks) < Weight(J, s.ws[j], Chunks)
             || (Weight(J, x, Chunks) == Weight(J, s.ws[j], Chunks) && Weight(J, w, Steps) < Weight(J, s.ws[i], Steps))
    ensures Less(Left(J, s.(ws := s.ws[i := w][j := x])), Left(J, s))
  {
    hide Weight, Total;
    var ws1 := s.ws[i := w];
    TotalUpdate(J, s.ws, i, w, Bytes);
    TotalUpdate(J, s.ws, i, w, Chunks);
    TotalUpdate(J, s.ws, i, w, Steps);
    TotalUpdate(J, ws1, j, x, Bytes);
    TotalUpdate(J, ws1, j, x, Chunks);
    TotalUpdate(J, ws1, j, x, Steps);
  }

  // ---------- every step ----------

  /** A worker never skips past the end of the file. */
  lemma StaysInside(J: Job, s: State, i: nat)
    requires J.Valid() && Inv(J, s) && i < |s.ws| && s.ws[i].pc.Emit?
    ensures s.ws[i].pos <= J.Size()
  {
    assert WorkerOk(J, s.ws[i]);
  }

  lemma LocalLess(J: Job, s: State, a: Action)
    requires J.Valid() && Inv(J, s) && IsLocal(a) && J.Enabled(s, a)
    ensures Less(Left(J, J.Apply(s, a)), Left(J, s))
  {
    hide Inv, Total, Less, Left, NullChunks;
    var w, w' := s.ws[a.i], J.Local(s, a);
    WorkerIs(J, s, a.i);
    if a.JumpStep? && w'.pc.Emit? {
      StepKeeps(J, s, a);
      StaysInside(J, J.Apply(s, a), a.i);
      JumpIsForward(w.pc.n / J.st.p.max, J.st.p.max);
    }
    hide Cut, Stream.IsRun;
    assert LessWork(J, w', w) by { LocalWork(J, s, a); }
    OneLess(J, s, a.i, w');
  }

  lemma JumpIsForward(k: int, m: int)
    requires k > 0 && m > 0
    ensures k * m > 0
  {
  }

  lemma WorkerIs(J: Job, s: State, i: nat)
    requires J.st.Valid() && Inv(J, s) && i < |s.ws|
    ensures WorkerOk(J, s.ws[i]) && s.ws[i].taken <= |s.ws[i].made|
    ensures i < s.ws[i].next <= |s.ws|
    ensures Reads(s.ws[i]) ==> s.ws[i].next < |s.ws|
    ensures s.ws[i].pc.Jump? ==> s.ws[i].pc.n >= 0
  {
    hide Target, Handed, ReadOk, Stream.IsRun;
  }

  lemma LocalWork(J: Job, s: State, a: Action)
    requires J.st.Valid() && IsLocal(a) && J.Enabled(s, a) && s.ws[a.i].taken <= |s.ws[a.i].made|
    requires a.JumpStep? && J.Local(s, a).pc.Emit? ==> s.ws[a.i].pos < J.Local(s, a).pos <= J.Size()
    ensures LessWork(J, J.Local(s, a), s.ws[a.i])
  {
    hide Cut, Stream.ChunkAt;
    if a.Produce? { assert J.st.ChunkAt(s.ws[a.i].pos).size > 0; }
  }

  lemma SyncLess(J: Job, s: State, i: nat)
    requires J.Valid() && Inv(J, s) && J.Enabled(s, SyncStep(i))
    ensures Less(Left(J, J.Apply(s, SyncStep(i))), Left(J, s))
  {
    hide Inv, Total, Left, WorkerOk;
    WorkerIs(J, s, i);
    var w, j := s.ws[i], s.ws[i].next;
    WorkerIs(J, s, j);
    var s' := J.SyncWith(s, i);
    if w.pc.chunk.start > s.ws[j].sync.start && (s.ws[j].taken < |s.ws[j].made| || s.ws[j].pc.Closed?) {
      TwoLess(J, s, i, s'.ws[i], j, s'.ws[j]);
    } else {
      OneLess(J, s, i, s'.ws[i]);
    }
  }

  lemma CountLess(J: Job, s: State, i: nat)
    requires J.Valid() && Inv(J, s) && J.Enabled(s, CountStep(i))
    ensures Less(Left(J, J.Apply(s, CountStep(i))), Left(J, s))
  {
    hide Inv, Total, Left, WorkerOk;
    WorkerIs(J, s, i);
    var w, j := s.ws[i], s.ws[i].next;
    WorkerIs(J, s, j);
    var s' := J.CountNulls(s, i);
    if s.ws[j].taken < |s.ws[j].made| || s.ws[j].pc.Closed? {
      TwoLess(J, s, i, s'.ws[i], j, s'.ws[j]);
    } else {
      OneLess(J, s, i, s'.ws[i]);
    }
  }

  lemma CollectorLess(J: Job, s: State, a: Action)
    requires J.Valid() && Inv(J, s) && J.Enabled(s, a) && (a.Collect? || a.Leave? || a.SkipStep?)
    ensures Less(Left(J, J.Apply(s, a)), Left(J, s))
  {
    hide Inv, Total, WorkerOk;
    match a
    case SkipStep(i) => OneLess(J, s, i, J.Apply(s, a).ws[i]);
    case Collect =>
      var x := s.ws[s.cur];
      OneLess(J, s, s.cur, x.(taken := x.taken + 1));
    case Leave =>
  }

  /** Every step, failures included, leaves less to do: there is no endless run. */
  lemma StepLess(J: Job, s: State, a: Action)
    requires J.Valid() && Inv(J, s) && J.Enabled(s, a)
    ensures Less(Left(J, J.Apply(s, a)), Left(J, s))
  {
    hide Inv, Less, Left, Job.Enabled, Job.Apply;
    match a
    case Collect => CollectorLess(J, s, a);
    case Leave => CollectorLess(J, s, a);
    case SkipStep(_) => CollectorLess(J, s, a);
    case SyncStep(i) => SyncLess(J, s, i);
    case CountStep(i) => CountLess(J, s, i);
    case _ => LocalLess(J, s, a);
  }

  // ---------- no deadlock ----------

  /** The step a worker takes next, unless it has closed its bucket. */
  function NextStep(J: Job, s: State, i: nat): Action
    requires i < |s.ws|
  {
    match s.ws[i].pc
    case Top => if s.ws[i].pos < J.Size() then Produce(i) else AtEnd(i)
    case Sync(_, _) => SyncStep(i)
    case Count(_, _) => CountStep(i)
    case Jump(_, _) => JumpStep(i)
    case Emit(_) => EmitStep(i)
    case Check => CheckStep(i)
    case CheckLen => SkipStep(i)
    case Stopping => Stop(i)
    case Closing => Close(i)
    case Closed => Leave
  }

  lemma StepIsEnabled(J: Job, s: State, i: nat)
    requires J.st.Valid() && s.status.Running? && i < |s.ws| && !s.ws[i].pc.Closed?
    requires Reads(s.ws[i]) ==> s.ws[i].next < |s.ws|
    requires s.ws[i].pc.Jump? ==> s.ws[i].pc.n >= 0
    ensures J.Enabled(s, NextStep(J, s, i)) && !NextStep(J, s, i).Fail?
  {
  }

  /** While the collector runs, somebody can move, and not by failing. */
  lemma CanStep(J: Job, s: State) returns (a: Action)
    requires J.Valid() && Inv(J, s) && s.status.Running?
    ensures J.Enabled(s, a) && !a.Fail?
  {
    hide Inv, WorkerOk, NextStep, Target;
    var k := TargetOf(J, s);
    WorkerIs(J, s, s.cur);
    if !s.ws[s.cur].pc.Closed? {
      StepIsEnabled(J, s, s.cur);
      a := NextStep(J, s, s.cur);
    } else if s.ws[s.cur].Drained() {
      a := Leave;
    } else {
      a := Collect;
    }
  }

  // ---------- failures ----------

  /** No worker has returned an error. */
  predicate NoError(s: State) {
    !s.status.Failed? && forall i :: 0 <= i < |s.ws| ==> !s.ws[i].err
  }

  lemma StepNoError(J: Job, s: State, a: Action)
    requires J.st.Valid() && NoError(s) && J.Enabled(s, a) && !a.Fail?
    ensures NoError(J.Apply(s, a))
  {
    hide Stream.ChunkAt;
  }

  lemma {:induction false} RunNoError(J: Job, s: State, acts: seq<Action>, s': State)
    requires J.st.Valid() && NoError(s) && J.Reaches(s, acts, s') && forall k :: 0 <= k < |acts| ==> !acts[k].Fail?
    ensures NoError(s')
    decreases |acts|
  {
    hide NoError, Job.Enabled, Job.Apply;
    if acts != [] {
      StepNoError(J, s, acts[0]);
      RunNoError(J, J.Apply(s, acts[0]), acts[1..], s');
    }
  }

  /** A run fails only if a worker did. */
  lemma {:induction false} FailsOnlyByFailure(J: Job, n: nat, acts: seq<Action>, s: State)
    requires J.Valid() && n > 0 && J.Reaches(J.Initial(n), acts, s)
    ensures s.status.Failed? || (exists i :: 0 <= i < |s.ws| && s.ws[i].err) ==> exists k :: 0 <= k < |acts| && acts[k].Fail?
  {
    if forall k :: 0 <= k < |acts| ==> !acts[k].Fail? {
      RunNoError(J, J.Initial(n), acts, s);
    }
  }

  // ---------- every run can be brought to its end ----------

  predicate WithoutFailure(acts: seq<Action>) {
    forall k :: 0 <= k < |acts| ==> !acts[k].Fail?
  }

  lemma {:induction false} Finishes(J: Job, s: State) returns (acts: seq<Action>, s': State)
    requires J.Valid() && Inv(J, s) && NoError(s)
    ensures J.Reaches(s, acts, s') && WithoutFailure(acts) && s'.status.Finished?
    decreases Left(J, s).0, Left(J, s).1, Left(J, s).2
  {
    hide Inv, Left, Job.Enabled, Job.Apply;
    if s.status.Finished? {
      return [], s;
    }
    var a := CanStep(J, s);
    StepKeeps(J, s, a);
    StepNoError(J, s, a);
    StepLess(J, s, a);
    var more;
    more, s' := Finishes(J, J.Apply(s, a));
    acts := [a] + more;
    assert acts[1..] == more;
  }

  /**
   Every run of any number of workers in which none has failed so far can be brought to its end
   without a failure, whatever steps it has taken; while it has not ended, some step is possible.
   */
  lemma {:induction false} EveryRunCanFinish(J: Job, n: nat, acts: seq<Action>, s: State) returns (more: seq<Action>, s': State)
    requires J.Valid() && n > 0 && J.Reaches(J.Initial(n), acts, s) && WithoutFailure(acts)
    ensures J.Reaches(s, more, s') && WithoutFailure(more) && s'.status.Finished?
  {
    hide Inv, Job.Reaches, Job.Initial;
    InitKeeps(J, n);
    RunKeeps(J, J.Initial(n), acts, s);
    InitNoError(J, n);
    RunNoError(J, J.Initial(n), acts, s);
    more, s' := Finishes(J, s);
  }

  /** Whatever has happened, as long as the run has not ended somebody can move, and not by failing. */
  lemma {:induction false} NeverStuck(J: Job, n: nat, acts: seq<Action>, s: State) returns (a: Action)
    requires J.Valid() && n > 0 && J.Reaches(J.Initial(n), acts, s) && s.status.Running?
    ensures J.Enabled(s, a) && !a.Fail?
  {
    hide Inv, Job.Reaches, Job.Initial;
    InitKeeps(J, n);
    RunKeeps(J, J.Initial(n), acts, s);
    a := CanStep(J, s);
  }

  lemma InitNoError(J: Job, n: nat)
    requires J.st.Valid() && n > 0
    ensures NoError(J.Initial(n))
  {
  }

  /** An error of the first worker is the outcome. */
  lemma FailureIsReported(J: Job, n: nat) returns (s: State)
    requires J.Valid() && n > 0
    ensures J.Reaches(J.Initial(n), [Fail(0), Stop(0), Close(0), Leave], s) && s.status.Failed?
  {
    var s0 := J.Initial(n);
    var s1 := J.Apply(s0, Fail(0));
    var s2 := J.Apply(s1, Stop(0));
    var s3 := J.Apply(s2, Close(0));
    s := J.Apply(s3, Leave);
    hide Job.Enabled, Job.Apply, Job.Initial;
    FirstStep(J, s3, Leave, [], s);
    FirstStep(J, s2, Close(0), [Leave], s);
    FirstStep(J, s1, Stop(0), [Close(0), Leave], s);
    FirstStep(J, s0, Fail(0), [Stop(0), Close(0), Leave], s);
  }

  lemma FirstStep(J: Job, s: State, a: Action, acts: seq<Action>, s': State)
    requires J.st.Valid() && J.Enabled(s, a) && J.Reaches(J.Apply(s, a), acts, s')
    ensures J.Reaches(s, [a] + acts, s')
  {
    hide Job.Enabled, Job.Apply;
    assert ([a] + acts)[1..] == acts;
  }
}
