/**
 The request queues that merge concurrent calls for one chunk: the first caller goes to the
 store, the others wait for its result. Every step under a lock and every step between locks
 is an action, so a run is an arbitrary interleaving of the calls.
 */
module DedupQueue {
  import opened Chunking
  import opened Prelude

  datatype Kind = Get | Has | Store
  datatype Key = Key(kind: Kind, id: ChunkID)

  datatype Data = Nothing | Chunk(bytes: seq<Byte>) | Present(has: bool)
  datatype Outcome = Outcome(data: Data, err: Option<string>)

  /** A request: its `done` channel has been closed `closes` times. */
  datatype Request = Request(key: Key, leader: nat, result: Option<Outcome>, closes: nat)

  /** Where a call stands. The chunk of a StoreChunk call is its argument. */
  datatype Pc =
    | Idle
    | Peeking(id: ChunkID)                                   // WriteDedupQueue.GetChunk before it looks at the store queue
    | Entering(key: Key, arg: Data)                          // before loadOrStore
    | Calling(key: Key, arg: Data, r: nat)                   // the store is being asked
    | Called(key: Key, arg: Data, r: nat, out: Outcome)      // the store has answered
    | Set(key: Key, arg: Data, r: nat, out: Outcome)         // markDone: fields are set, `done` is still open
    | Marked(key: Key, arg: Data, r: nat, out: Outcome)      // `done` is closed, the entry is still in the queue
    | Waiting(key: Key, arg: Data, r: nat)
    | Returned(key: Key, arg: Data, r: nat, out: Outcome)

  datatype State = State(reqs: seq<Request>, queue: map<Key, nat>, calls: seq<Pc>)

  datatype Action =
    | Invoke(w: nat, key: Key, arg: Data, peek: bool)
    | Peek(w: nat)
    | LoadOrStore(w: nat)
    | Answer(w: nat, out: Outcome)
    | SetResult(w: nat)
    | Close(w: nat)
    | Delete(w: nat)
    | Wake(w: nat)

  /** The dynamic type of what a request of this kind carries. */
  predicate Typed(kind: Kind, data: Data) {
    match kind
    case Get => data.Nothing? || data.Chunk?
    case Has => data.Present?
    case Store => data.Chunk?
  }

  /** What a call returns of an outcome: StoreChunk only has the error. */
  function Shown(kind: Kind, out: Outcome): Outcome {
    if kind == Store then Outcome(Nothing, out.err) else out
  }

  predicate Initial(s: State) {
    s.reqs == [] && s.queue == map[] && forall w :: 0 <= w < |s.calls| ==> s.calls[w] == Idle
  }

  predicate Leads(pc: Pc) {
    pc.Calling? || pc.Called? || pc.Set? || pc.Marked?
  }

  predicate Enabled(s: State, a: Action) {
    && a.w < |s.calls|
    && var pc := s.calls[a.w];
       match a
       case Invoke(_, key, arg, peek) => pc.Idle? && (key.kind == Store ==> arg.Chunk?) && (peek ==> key.kind == Get)
       case Peek(_) => pc.Peeking?
       case LoadOrStore(_) => pc.Entering?
       case Answer(_, out) => pc.Calling? && Typed(pc.key.kind, out.data) && (pc.key.kind == Store ==> out.data == pc.arg)
       case SetResult(_) => pc.Called? && pc.r < |s.reqs|
       case Close(_) => pc.Set? && pc.r < |s.reqs|
       case Delete(_) => pc.Marked?
       case Wake(_) => pc.Waiting? && pc.r < |s.reqs| && s.reqs[pc.r].closes > 0 && s.reqs[pc.r].result.Some?
  }

  function Apply(s: State, a: Action): State
    requires Enabled(s, a)
  {
    var w, pc := a.w, s.calls[a.w];
    match a
    case Invoke(_, key, arg, peek) => s.(calls := s.calls[w := if peek then Peeking(key.id) else Entering(key, arg)])
    case Peek(_) =>
      var key := Key(Store, pc.id);
      s.(calls := s.calls[w := if key in s.queue then Waiting(Key(Get, pc.id), Nothing, s.queue[key]) else Entering(Key(Get, pc.id), Nothing)])
    case LoadOrStore(_) =>
      if pc.key in s.queue then s.(calls := s.calls[w := Waiting(pc.key, pc.arg, s.queue[pc.key])])
      else State(s.reqs + [Request(pc.key, w, None, 0)], s.queue[pc.key := |s.reqs|], s.calls[w := Calling(pc.key, pc.arg, |s.reqs|)])
    case Answer(_, out) => s.(calls := s.calls[w := Called(pc.key, pc.arg, pc.r, out)])
    case SetResult(_) =>
      var q := s.reqs[pc.r];
      s.(reqs := s.reqs[pc.r := Request(q.key, q.leader, Some(pc.out), q.closes)], calls := s.calls[w := Set(pc.key, pc.arg, pc.r, pc.out)])
    case Close(_) =>
      var q := s.reqs[pc.r];
      s.(reqs := s.reqs[pc.r := Request(q.key, q.leader, q.result, q.closes + 1)], calls := s.calls[w := Marked(pc.key, pc.arg, pc.r, pc.out)])
    case Delete(_) => s.(queue := s.queue - {pc.key}, calls := s.calls[w := Returned(pc.key, pc.arg, pc.r, Shown(pc.key.kind, pc.out))])
    case Wake(_) => s.(calls := s.calls[w := Returned(pc.key, pc.arg, pc.r, Shown(pc.key.kind, s.reqs[pc.r].result.value))])
  }

  ghost predicate Reaches(s: State, acts: seq<Action>, s': State)
    decreases |acts|
  {
    if acts == [] then s' == s else Enabled(s, acts[0]) && Reaches(Apply(s, acts[0]), acts[1..], s')
  }

  // ---------- the invariant ----------

  /** The leader of request r still works on it. */
  predicate Led(s: State, r: nat)
    requires r < |s.reqs|
  {
    var w := s.reqs[r].leader;
    w < |s.calls| && Leads(s.calls[w]) && s.calls[w].r == r && s.calls[w].key == s.reqs[r].key
  }

  /** The leader of request r has returned. */
  predicate Left(s: State, r: nat)
    requires r < |s.reqs|
  {
    var w := s.reqs[r].leader;
    w < |s.calls| && s.calls[w].Returned? && s.calls[w].r == r && s.calls[w].key == s.reqs[r].key
  }

  /** While it is led, a request is in the queue and follows its leader; afterwards it is closed once and gone from the queue. */
  predicate ReqOk(s: State, r: nat)
    requires r < |s.reqs|
  {
    var q := s.reqs[r];
    && (q.result.Some? ==> Typed(q.key.kind, q.result.value.data))
    && if Led(s, r) then
         var pc := s.calls[q.leader];
         && q.key in s.queue && s.queue[q.key] == r
         && q.closes == (if pc.Marked? then 1 else 0)
         && (pc.Set? || pc.Marked? ==> q.result == Some(pc.out))
       else
         && q.closes == 1 && q.result.Some? && (q.key in s.queue ==> s.queue[q.key] != r)
         && Left(s, r) && (q.key.kind == Store ==> q.result.value.data == s.calls[q.leader].arg)
  }

  predicate QueueOk(s: State, key: Key)
    requires key in s.queue
  {
    var r := s.queue[key];
    r < |s.reqs| && s.reqs[r].key == key && Led(s, r)
  }

  predicate PcOk(s: State, w: nat)
    requires w < |s.calls|
  {
    var pc := s.calls[w];
    match pc
    case Idle => true
    case Peeking(_) => true
    case Entering(key, arg) => key.kind == Store ==> arg.Chunk?
    case Waiting(key, _, r) => r < |s.reqs| && Served(key, s.reqs[r].key)
    case Returned(key, _, r, out) =>
      && r < |s.reqs| && Served(key, s.reqs[r].key) && s.reqs[r].closes == 1
      && s.reqs[r].result.Some? && out == Shown(key.kind, s.reqs[r].result.value)
    case Calling(key, arg, r) => r < |s.reqs| && s.reqs[r].leader == w && s.reqs[r].key == key && (key.kind == Store ==> arg.Chunk?)
    case Called(key, arg, r, out) =>
      r < |s.reqs| && s.reqs[r].leader == w && s.reqs[r].key == key && Typed(key.kind, out.data) && (key.kind == Store ==> out.data == arg)
    case Set(key, arg, r, out) => r < |s.reqs| && s.reqs[r].leader == w && s.reqs[r].key == key && (key.kind == Store ==> out.data == arg)
    case Marked(key, arg, r, out) => r < |s.reqs| && s.reqs[r].leader == w && s.reqs[r].key == key && (key.kind == Store ==> out.data == arg)
  }

  /** A call is served by a request of its own kind and chunk, or a GetChunk by a StoreChunk of the same chunk. */
  predicate Served(key: Key, q: Key) {
    q == key || (key.kind == Get && q == Key(Store, key.id))
  }

  predicate Inv(s: State) {
    && (forall r :: 0 <= r < |s.reqs| ==> ReqOk(s, r))
    && (forall key :: key in s.queue ==> QueueOk(s, key))
    && forall w :: 0 <= w < |s.calls| ==> PcOk(s, w)
  }

  lemma InitialInv(s: State)
    requires Initial(s)
    ensures Inv(s)
  {
  }

  /** Steps that only move a call that leads nothing. */
  lemma LocalKeeps(s: State, w: nat, pc: Pc)
    requires Inv(s) && w < |s.calls| && !Leads(s.calls[w]) && !s.calls[w].Returned? && !Leads(pc) && PcOk(s.(calls := s.calls[w := pc]), w)
    ensures Inv(s.(calls := s.calls[w := pc]))
  {
    var s' := s.(calls := s.calls[w := pc]);
    forall r | 0 <= r < |s.reqs|
      ensures ReqOk(s', r) && Led(s', r) == Led(s, r)
    {
      assert ReqOk(s, r);
    }
    forall key | key in s.queue
      ensures QueueOk(s', key)
    {
      assert QueueOk(s, key);
    }
    forall v | 0 <= v < |s.calls| && v != w
      ensures PcOk(s', v)
    {
      assert PcOk(s, v);
    }
  }

  lemma JoinKeeps(s: State, a: Action)
    requires Inv(s) && Enabled(s, a) && (a.Invoke? || a.Peek? || a.Wake? || (a.LoadOrStore? && s.calls[a.w].key in s.queue))
    ensures Inv(Apply(s, a))
  {
    hide ReqOk;
    var w, pc := a.w, s.calls[a.w];
    assert PcOk(s, w);
    match a {
      case Invoke(_, key, arg, peek) => LocalKeeps(s, w, if peek then Peeking(key.id) else Entering(key, arg));
      case Peek(_) =>
        var key := Key(Store, pc.id);
        if key in s.queue { assert QueueOk(s, key); }
        LocalKeeps(s, w, Apply(s, a).calls[w]);
      case LoadOrStore(_) =>
        assert QueueOk(s, pc.key);
        LocalKeeps(s, w, Apply(s, a).calls[w]);
      case Wake(_) =>
        AtReq(s, pc.r);
        LocalKeeps(s, w, Apply(s, a).calls[w]);
    }
  }

  lemma AtReq(s: State, r: nat)
    requires Inv(s) && r < |s.reqs|
    ensures ReqOk(s, r) && s.reqs[r].closes <= 1
  {
  }

  lemma LeadKeeps(s: State, a: Action)
    requires Inv(s) && Enabled(s, a) && a.LoadOrStore? && s.calls[a.w].key !in s.queue
    ensures Inv(Apply(s, a))
  {
    var w, s' := a.w, Apply(s, a);
    var n := |s.reqs|;
    assert PcOk(s, w);
    forall r | 0 <= r < |s'.reqs|
      ensures ReqOk(s', r) && (r < n ==> Led(s', r) == Led(s, r))
    {
      if r < n { assert ReqOk(s, r); }
    }
    forall key | key in s'.queue
      ensures QueueOk(s', key)
    {
      if key in s.queue { assert QueueOk(s, key); }
    }
    forall v | 0 <= v < |s.calls|
      ensures PcOk(s', v)
    {
      assert PcOk(s, v);
    }
  }

  lemma AnswerKeeps(s: State, a: Action)
    requires Inv(s) && Enabled(s, a) && a.Answer?
    ensures Inv(Apply(s, a))
  {
    var w, s' := a.w, Apply(s, a);
    var me := s.calls[w].r;
    assert PcOk(s, w) && ReqOk(s, me);
    forall r | 0 <= r < |s'.reqs|
      ensures ReqOk(s', r) && Led(s', r) == Led(s, r)
    {
      assert ReqOk(s, r);
    }
    forall key | key in s'.queue
      ensures QueueOk(s', key)
    {
      assert QueueOk(s, key);
    }
    forall v | 0 <= v < |s.calls|
      ensures PcOk(s', v)
    {
      assert PcOk(s, v);
    }
  }

  /** The two halves of markDone. */
  lemma SetKeeps(s: State, a: Action)
    requires Inv(s) && Enabled(s, a) && a.SetResult?
    ensures Inv(Apply(s, a))
  {
    var w, s' := a.w, Apply(s, a);
    var me := s.calls[w].r;
    assert PcOk(s, w) && ReqOk(s, me);
    forall r | 0 <= r < |s'.reqs|
      ensures ReqOk(s', r) && Led(s', r) == Led(s, r)
    {
      assert ReqOk(s, r);
    }
    forall key | key in s'.queue
      ensures QueueOk(s', key)
    {
      assert QueueOk(s, key);
    }
    forall v | 0 <= v < |s.calls|
      ensures PcOk(s', v)
    {
      assert PcOk(s, v);
    }
  }

  lemma CloseKeeps(s: State, a: Action)
    requires Inv(s) && Enabled(s, a) && a.Close?
    ensures Inv(Apply(s, a))
  {
    var w, s' := a.w, Apply(s, a);
    var me := s.calls[w].r;
    assert PcOk(s, w) && ReqOk(s, me);
    forall r | 0 <= r < |s'.reqs|
      ensures ReqOk(s', r) && Led(s', r) == Led(s, r)
    {
      assert ReqOk(s, r);
    }
    forall key | key in s'.queue
      ensures QueueOk(s', key)
    {
      assert QueueOk(s, key);
    }
    forall v | 0 <= v < |s.calls|
      ensures PcOk(s', v)
    {
      assert PcOk(s, v);
    }
  }

  /** A leader deletes its own entry and no other. */
  lemma DeletesOwn(s: State, a: Action)
    requires Inv(s) && Enabled(s, a) && a.Delete?
    ensures s.calls[a.w].key in s.queue && s.queue[s.calls[a.w].key] == s.calls[a.w].r
    ensures Apply(s, a).queue == s.queue - {s.calls[a.w].key}
  {
    assert PcOk(s, a.w) && ReqOk(s, s.calls[a.w].r);
  }

  lemma DeleteKeeps(s: State, a: Action)
    requires Inv(s) && Enabled(s, a) && a.Delete?
    ensures Inv(Apply(s, a))
  {
    var w, s' := a.w, Apply(s, a);
    var me, mine := s.calls[w].r, s.calls[w].key;
    DeletesOwn(s, a);
    assert PcOk(s, w) && ReqOk(s, me);
    forall r | 0 <= r < |s'.reqs|
      ensures ReqOk(s', r) && (r != me ==> Led(s', r) == Led(s, r))
    {
      assert ReqOk(s, r);
    }
    forall key | key in s'.queue
      ensures QueueOk(s', key)
    {
      assert QueueOk(s, key);
    }
    forall v | 0 <= v < |s.calls|
      ensures PcOk(s', v)
    {
      assert PcOk(s, v);
    }
  }

  lemma StepKeeps(s: State, a: Action)
    requires Inv(s) && Enabled(s, a)
    ensures Inv(Apply(s, a))
  {
    hide Inv;
    match a {
      case Invoke(_, _, _, _) => JoinKeeps(s, a);
      case Peek(_) => JoinKeeps(s, a);
      case LoadOrStore(w) => if s.calls[w].key in s.queue { JoinKeeps(s, a); } else { LeadKeeps(s, a); }
      case Answer(_, _) => AnswerKeeps(s, a);
      case SetResult(_) => SetKeeps(s, a);
      case Close(_) => CloseKeeps(s, a);
      case Delete(_) => DeleteKeeps(s, a);
      case Wake(_) => JoinKeeps(s, a);
    }
  }

  lemma {:induction false} RunKeeps(s: State, acts: seq<Action>, s': State)
    requires Inv(s) && Reaches(s, acts, s')
    ensures Inv(s')
    decreases |acts|
  {
    hide Inv, Enabled, Apply;
    if acts != [] {
      StepKeeps(s, acts[0]);
      RunKeeps(Apply(s, acts[0]), acts[1..], s');
    }
  }

  // ---------- what follows ----------

  /** At most one call per kind and chunk is at work in the store, or between its answer and the end of the request. */
  lemma {:induction false} OneUpstreamCall(s: State, acts: seq<Action>, s': State, v: nat, w: nat)
    requires Initial(s) && Reaches(s, acts, s') && v < |s'.calls| && w < |s'.calls|
    requires Leads(s'.calls[v]) && Leads(s'.calls[w]) && s'.calls[v].key == s'.calls[w].key
    ensures v == w
  {
    InitialInv(s);
    RunKeeps(s, acts, s');
    assert PcOk(s', v) && PcOk(s', w);
    assert ReqOk(s', s'.calls[v].r) && ReqOk(s', s'.calls[w].r);
  }

  /** A `done` channel is never closed twice, and it is closed once its leader has returned. */
  lemma {:induction false} ClosedExactlyOnce(s: State, acts: seq<Action>, s': State, r: nat)
    requires Initial(s) && Reaches(s, acts, s') && r < |s'.reqs|
    ensures s'.reqs[r].closes <= 1
    ensures forall w :: 0 <= w < |s'.calls| && s'.calls[w].Set? && s'.calls[w].r == r ==> s'.reqs[r].closes == 0
    ensures s'.reqs[r].leader < |s'.calls| && s'.calls[s'.reqs[r].leader].Returned? ==> s'.reqs[r].closes == 1
  {
    InitialInv(s);
    RunKeeps(s, acts, s');
    assert ReqOk(s', r);
    forall w | 0 <= w < |s'.calls| && s'.calls[w].Set? && s'.calls[w].r == r
      ensures s'.reqs[r].closes == 0
    {
      assert PcOk(s', w);
    }
  }

  /**
   A call returns the result of the request that served it, of the type it expects: a GetChunk never
   sees data that is neither a chunk nor nothing, and a HasChunk always sees a boolean.
   */
  lemma {:induction false} CallsReturnTheirRequest(s: State, acts: seq<Action>, s': State, w: nat)
    requires Initial(s) && Reaches(s, acts, s') && w < |s'.calls| && s'.calls[w].Returned?
    ensures var pc := s'.calls[w];
            && pc.r < |s'.reqs| && Served(pc.key, s'.reqs[pc.r].key) && s'.reqs[pc.r].result.Some?
            && pc.out == Shown(pc.key.kind, s'.reqs[pc.r].result.value)
            && (pc.key.kind == Get ==> pc.out.data.Nothing? || pc.out.data.Chunk?)
            && (pc.key.kind == Has ==> pc.out.data.Present?)
  {
    InitialInv(s);
    RunKeeps(s, acts, s');
    assert PcOk(s', w);
    assert ReqOk(s', s'.calls[w].r);
  }

  /**
   Every joiner returns its leader's result. The leader has answered by then: it is about to return or
   has returned. If it made a call of the same kind, both return the same; a GetChunk served by a
   StoreChunk returns the error of that call and the chunk it was given.
   */
  lemma {:induction false} JoinersReturnLeadersResult(s: State, acts: seq<Action>, s': State, w: nat)
    requires Initial(s) && Reaches(s, acts, s') && w < |s'.calls| && s'.calls[w].Returned?
    ensures var pc := s'.calls[w];
            && pc.r < |s'.reqs|
            && var l := s'.reqs[pc.r].leader;
            && l < |s'.calls| && (s'.calls[l].Marked? || s'.calls[l].Returned?) && s'.calls[l].r == pc.r
            && var lead := if s'.calls[l].Marked? then Shown(s'.calls[l].key.kind, s'.calls[l].out) else s'.calls[l].out;
               if s'.calls[l].key == pc.key then pc.out == lead
               else pc.key.kind == Get && s'.calls[l].key == Key(Store, pc.key.id) && pc.out == Outcome(s'.calls[l].arg, lead.err)
  {
    InitialInv(s);
    RunKeeps(s, acts, s');
    assert PcOk(s', w);
    var r := s'.calls[w].r;
    assert ReqOk(s', r);
    var l := s'.reqs[r].leader;
    assert PcOk(s', l);
  }

  /** No entry outlives the calls. */
  lemma {:induction false} EmptyWhenIdle(s: State, acts: seq<Action>, s': State)
    requires Initial(s) && Reaches(s, acts, s')
    requires forall w :: 0 <= w < |s'.calls| ==> s'.calls[w].Idle? || s'.calls[w].Returned?
    ensures s'.queue == map[]
  {
    hide Inv;
    InitialInv(s);
    RunKeeps(s, acts, s');
    forall key
      ensures key !in s'.queue
    {
      if key in s'.queue { EntryIsLed(s', key); }
    }
  }

  lemma EntryIsLed(s: State, key: Key)
    requires Inv(s) && key in s.queue
    ensures exists w :: 0 <= w < |s.calls| && Leads(s.calls[w]) && s.calls[w].key == key
  {
    assert QueueOk(s, key);
  }

  /** A call that has not returned can move, or waits for one that can. */
  lemma {:induction false} NoDeadlock(s: State, acts: seq<Action>, s': State, w: nat) returns (a: Action)
    requires Initial(s) && Reaches(s, acts, s') && w < |s'.calls| && !s'.calls[w].Idle? && !s'.calls[w].Returned?
    ensures Enabled(s', a) && !a.Invoke?
    ensures a.w == w || (s'.calls[w].Waiting? && s'.calls[w].r < |s'.reqs| && a.w == s'.reqs[s'.calls[w].r].leader)
  {
    InitialInv(s);
    RunKeeps(s, acts, s');
    a := CanMove(s', w);
  }

  lemma CanMove(s: State, w: nat) returns (a: Action)
    requires Inv(s) && w < |s.calls| && !s.calls[w].Idle? && !s.calls[w].Returned?
    ensures Enabled(s, a) && !a.Invoke?
    ensures a.w == w || (s.calls[w].Waiting? && s.calls[w].r < |s.reqs| && a.w == s.reqs[s.calls[w].r].leader)
  {
    assert PcOk(s, w);
    var v := w;
    if s.calls[w].Waiting? {
      var r := s.calls[w].r;
      assert ReqOk(s, r);
      if !Led(s, r) || s.calls[s.reqs[r].leader].Marked? {
        return Wake(w);
      }
      v := s.reqs[r].leader;
      assert PcOk(s, v);
    }
    match s.calls[v] {
      case Peeking(_) => a := Peek(v);
      case Entering(_, _) => a := LoadOrStore(v);
      case Calling(key, arg, _) => a := Answer(v, Outcome(if key.kind == Has then Present(false) else if key.kind == Store then arg else Nothing, None));
      case Called(_, _, _, _) => a := SetResult(v);
      case Set(_, _, _, _) => a := Close(v);
      case Marked(_, _, _, _) => a := Delete(v);
    }
  }
}
