/**
 What the request queues are for: a call joins whatever is in flight for its chunk, returns what
 the store answered to its leader, and does return.
 */
module DedupLive {
  import opened Prelude
  import opened Chunking
  import opened DedupQueue

  // ---------- joining ----------

  /** Call l is between entering the queue and leaving it, for this kind and chunk. */
  predicate InFlight(s: State, l: nat, key: Key) {
    l < |s.calls| && Leads(s.calls[l]) && s.calls[l].key == key
  }

  /** Whoever is in flight has the entry in the queue. */
  lemma InFlightIsQueued(s: State, l: nat, key: Key)
    requires Inv(s) && InFlight(s, l, key)
    ensures key in s.queue && s.queue[key] == s.calls[l].r
  {
    assert PcOk(s, l);
    assert ReqOk(s, s.calls[l].r);
  }

  /** A call for something in flight waits for it, and sends nothing to the store; otherwise it leads a new request. */
  lemma {:induction false} JoinsInFlight(s0: State, acts: seq<Action>, s: State, w: nat)
    requires Initial(s0) && Reaches(s0, acts, s) && Enabled(s, LoadOrStore(w))
    ensures var key, s' := s.calls[w].key, Apply(s, LoadOrStore(w));
            && (forall l: nat :: InFlight(s, l, key) ==> s'.calls[w] == Waiting(key, s.calls[w].arg, s.calls[l].r) && s'.reqs == s.reqs)
            && ((forall l: nat :: l < |s.calls| ==> !InFlight(s, l, key)) ==>
                  s'.calls[w] == Calling(key, s.calls[w].arg, |s.reqs|) && |s'.reqs| == |s.reqs| + 1 && s'.reqs[|s.reqs|].leader == w)
  {
    InitialInv(s0);
    RunKeeps(s0, acts, s);
    var key := s.calls[w].key;
    forall l: nat | InFlight(s, l, key)
      ensures key in s.queue && s.queue[key] == s.calls[l].r
    {
      InFlightIsQueued(s, l, key);
    }
    if key in s.queue {
      EntryIsLed(s, key);
    }
  }

  /** A GetChunk first looks for a StoreChunk of its chunk in flight and waits for it if there is one. */
  lemma {:induction false} GetJoinsStore(s0: State, acts: seq<Action>, s: State, w: nat)
    requires Initial(s0) && Reaches(s0, acts, s) && Enabled(s, Peek(w))
    ensures var id, s' := s.calls[w].id, Apply(s, Peek(w));
            && (forall l: nat :: InFlight(s, l, Key(Store, id)) ==> s'.calls[w] == Waiting(Key(Get, id), Nothing, s.calls[l].r))
            && ((forall l: nat :: l < |s.calls| ==> !InFlight(s, l, Key(Store, id))) ==> s'.calls[w] == Entering(Key(Get, id), Nothing))
  {
    InitialInv(s0);
    RunKeeps(s0, acts, s);
    var key := Key(Store, s.calls[w].id);
    forall l: nat | InFlight(s, l, key)
      ensures key in s.queue && s.queue[key] == s.calls[l].r
    {
      InFlightIsQueued(s, l, key);
    }
    if key in s.queue {
      EntryIsLed(s, key);
    }
  }

  // ---------- results come from the store ----------

  /** The outcome is recorded in request r, or its leader l has it and is about to record it. */
  predicate Known(s: State, l: nat, r: nat, out: Outcome) {
    || (r < |s.reqs| && s.reqs[r].leader == l && s.reqs[r].result == Some(out))
    || (l < |s.calls| && (s.calls[l].Called? || s.calls[l].Set? || s.calls[l].Marked?) && s.calls[l].r == r && s.calls[l].out == out)
  }

  lemma StepKnown(s: State, a: Action, l: nat, r: nat, out: Outcome)
    requires Inv(s) && Enabled(s, a) && Known(Apply(s, a), l, r, out)
    ensures Known(s, l, r, out) || a == Answer(l, out)
  {
    assert PcOk(s, a.w);
  }

  lemma {:induction false} RunKnown(s: State, acts: seq<Action>, s': State, l: nat, r: nat, out: Outcome)
    requires Inv(s) && Reaches(s, acts, s') && Known(s', l, r, out) && !Known(s, l, r, out)
    ensures exists k :: 0 <= k < |acts| && acts[k] == Answer(l, out)
    decreases |acts|
  {
    hide Inv, Known, Enabled, Apply;
    if acts != [] {
      var s1 := Apply(s, acts[0]);
      StepKeeps(s, acts[0]);
      if Known(s1, l, r, out) {
        StepKnown(s, acts[0], l, r, out);
      } else {
        RunKnown(s1, acts[1..], s', l, r, out);
        var k :| 0 <= k < |acts[1..]| && acts[1..][k] == Answer(l, out);
        assert acts[k + 1] == acts[1..][k];
      }
    }
  }

  /**
   A call returns what the store answered to the leader of its request: the error always, and the
   data unless the call was a StoreChunk, which has none.
   */
  lemma {:induction false} ResultIsFromStore(s: State, acts: seq<Action>, s': State, w: nat) returns (k: nat)
    requires Initial(s) && Reaches(s, acts, s') && w < |s'.calls| && s'.calls[w].Returned?
    ensures s'.calls[w].r < |s'.reqs| && k < |acts| && acts[k].Answer? && acts[k].w == s'.reqs[s'.calls[w].r].leader
    ensures s'.calls[w].out.err == acts[k].out.err
    ensures s'.calls[w].key.kind != Store ==> s'.calls[w].out.data == acts[k].out.data
    ensures s'.calls[w].key.kind == Store ==> s'.calls[w].out.data == Nothing
  {
    InitialInv(s);
    CallsReturnTheirRequest(s, acts, s', w);
    var r := s'.calls[w].r;
    var l, out := s'.reqs[r].leader, s'.reqs[r].result.value;
    assert Known(s', l, r, out) && !Known(s, l, r, out);
    RunKnown(s, acts, s', l, r, out);
    k :| 0 <= k < |acts| && acts[k] == Answer(l, out);
  }

  /** What a call is for. */
  predicate IsFor(pc: Pc, key: Key) {
    match pc
    case Idle => false
    case Peeking(id) => key == Key(Get, id)
    case _ => pc.key == key
  }

  /** A call works on the kind and chunk its caller asked for. */
  lemma {:induction false} KeyIsFromCaller(s: State, acts: seq<Action>, s': State, w: nat, key: Key)
    requires Reaches(s, acts, s') && w < |s.calls| && w < |s'.calls| && !IsFor(s.calls[w], key) && IsFor(s'.calls[w], key)
    ensures exists k :: 0 <= k < |acts| && acts[k].Invoke? && acts[k].w == w && acts[k].key == key
    decreases |acts|
  {
    if acts != [] {
      var a, s1 := acts[0], Apply(s, acts[0]);
      if IsFor(s1.calls[w], key) {
        assert a.Invoke? && a.w == w && a.key == key;
      } else {
        hide Apply, Enabled;
        SameCalls(s, a);
        KeyIsFromCaller(s1, acts[1..], s', w, key);
        var k :| 0 <= k < |acts[1..]| && acts[1..][k].Invoke? && acts[1..][k].w == w && acts[1..][k].key == key;
        assert acts[k + 1] == acts[1..][k];
      }
    }
  }

  lemma SameCalls(s: State, a: Action)
    requires Enabled(s, a)
    ensures |Apply(s, a).calls| == |s.calls|
  {
  }

  // ---------- every call returns ----------

  function Rank(pc: Pc): nat {
    match pc
    case Idle => 9
    case Peeking(_) => 8
    case Entering(_, _) => 7
    case Calling(_, _, _) => 6
    case Called(_, _, _, _) => 5
    case Set(_, _, _, _) => 4
    case Marked(_, _, _, _) => 3
    case Waiting(_, _, _) => 2
    case Returned(_, _, _, _) => 0
  }

  function Total(calls: seq<Pc>): nat {
    if calls == [] then 0 else Rank(calls[0]) + Total(calls[1..])
  }

  lemma {:induction false} TotalUpdate(calls: seq<Pc>, w: nat, pc: Pc)
    requires w < |calls|
    ensures Total(calls[w := pc]) == Total(calls) - Rank(calls[w]) + Rank(pc)
    decreases |calls|
  {
    hide Rank;
    var calls' := calls[w := pc];
    if w == 0 {
      assert calls'[1..] == calls[1..];
    } else {
      assert calls'[1..] == calls[1..][w - 1 := pc];
      TotalUpdate(calls[1..], w - 1, pc);
    }
  }

  /** Every step of a call brings it closer to its return: no run goes on for ever. */
  lemma StepCloser(s: State, a: Action)
    requires Enabled(s, a)
    ensures Total(Apply(s, a).calls) < Total(s.calls)
  {
    hide Total;
    TotalUpdate(s.calls, a.w, Apply(s, a).calls[a.w]);
  }

  predicate AllReturned(s: State) {
    forall w :: 0 <= w < |s.calls| ==> s.calls[w].Idle? || s.calls[w].Returned?
  }

  predicate NoNewCalls(acts: seq<Action>) {
    forall k :: 0 <= k < |acts| ==> !acts[k].Invoke?
  }

  lemma {:induction false} AllReturn(s: State) returns (acts: seq<Action>, s': State)
    requires Inv(s)
    ensures Reaches(s, acts, s') && NoNewCalls(acts) && AllReturned(s')
    decreases Total(s.calls)
  {
    hide Inv, Enabled, Apply, Total;
    if AllReturned(s) {
      return [], s;
    }
    var w :| 0 <= w < |s.calls| && !s.calls[w].Idle? && !s.calls[w].Returned?;
    var a := CanMove(s, w);
    StepKeeps(s, a);
    StepCloser(s, a);
    var more;
    more, s' := AllReturn(Apply(s, a));
    acts := [a] + more;
    assert acts[1..] == more;
  }

  /** Whatever calls have been made, without new ones all of them can be brought to their return. */
  lemma {:induction false} EveryCallCanReturn(s: State, acts: seq<Action>, s': State) returns (more: seq<Action>, s'': State)
    requires Initial(s) && Reaches(s, acts, s')
    ensures Reaches(s', more, s'') && NoNewCalls(more) && AllReturned(s'')
  {
    InitialInv(s);
    RunKeeps(s, acts, s');
    more, s'' := AllReturn(s');
  }

  /** The store may answer anything of the kind it was asked for, errors included. */
  lemma StoreAnswersAnything(s: State, w: nat, out: Outcome)
    requires w < |s.calls| && s.calls[w].Calling? && (s.calls[w].key.kind == Store ==> s.calls[w].arg.Chunk?)
    requires match s.calls[w].key.kind
             case Get => out.data.Nothing? || out.data.Chunk?
             case Has => out.data.Present?
             case Store => out.data == s.calls[w].arg
    ensures Enabled(s, Answer(w, out)) && Apply(s, Answer(w, out)).calls[w].out == out
  {
  }
}
