/** Reads of the copy-on-read file come to an end: whatever the others do, a read can be brought to its end without a failure. */
module SparseLive {
  import opened Chunking
  import opened Planning
  import opened IndexedBlob
  import opened SparseFile
  import opened SparseProof

  predicate WithoutFailure(acts: seq<Action>) {
    forall k :: 0 <= k < |acts| ==> !acts[k].Fail?
  }

  /** A run without failures, and what it keeps. */
  ghost predicate Leads(P: Cache, s: State, acts: seq<Action>, s': State)
    requires P.Valid()
  {
    P.Reaches(s, acts, s') && WithoutFailure(acts) && Inv(P, s') && |s'.ws| == |s.ws|
  }

  lemma First(P: Cache, s: State, a: Action, acts: seq<Action>, s': State)
    requires P.Valid() && Inv(P, s) && P.Enabled(s, a) && !a.Fail? && Leads(P, P.Apply(s, a), acts, s')
    ensures Leads(P, s, [a] + acts, s')
  {
    hide Cache.Enabled, Inv;
    SameCalls(P, s, [a], P.Apply(s, a)) by { OneStep(P, s, a, P.Apply(s, a), [], P.Apply(s, a)); }
    OneStep(P, s, a, P.Apply(s, a), acts, s');
  }

  lemma Nothing(P: Cache, s: State)
    requires P.Valid() && Inv(P, s)
    ensures Leads(P, s, [], s)
  {
  }

  lemma Then(P: Cache, s: State, a: seq<Action>, s': State, b: seq<Action>, s'': State)
    requires P.Valid() && Leads(P, s, a, s') && Leads(P, s', b, s'')
    ensures Leads(P, s, a + b, s'')
  {
    hide Inv, Cache.Reaches;
    RunsJoin(P, s, a, s', b, s'');
  }

  lemma OneAction(P: Cache, s: State, a: Action)
    requires P.Valid() && Inv(P, s) && P.Enabled(s, a) && !a.Fail?
    ensures Leads(P, s, [a], P.Apply(s, a))
  {
    hide Cache.Enabled, Inv, Cache.Apply;
    StepKeeps(P, s, a);
    Nothing(P, P.Apply(s, a));
    First(P, s, a, [], P.Apply(s, a));
    assert [a] + [] == [a];
  }

  /** Only call w has moved. */
  predicate OnlyMoves(s: State, s': State, w: nat) {
    |s'.ws| == |s.ws| && forall v :: 0 <= v < |s.ws| && v != w ==> s'.ws[v] == s.ws[v]
  }

  /** A call inside `once` writes what is left of its chunk, marks it and leaves. */
  lemma {:induction false} Release(P: Cache, s: State, w: nat) returns (acts: seq<Action>, s': State)
    requires P.Valid() && Inv(P, s) && w < |s.ws| && (s.ws[w].Writing? || s.ws[w].Leaving?)
    ensures Leads(P, s, acts, s') && OnlyMoves(s, s', w)
    ensures s.ws[w].needed != [] && s.ws[w].needed[0] < |P.chunks| == |s'.once|
    ensures s'.ws[w] == Loading(s.ws[w].job, s.ws[w].needed[1..]) && s'.once[s.ws[w].needed[0]] == Spent
    decreases s.ws[w].Writing?, if s.ws[w].Writing? then |s.ws[w].left| else 0
  {
    hide Cache.Valid, Inv, ListOk, Leads;
    AtPc(P, s, w);
    var pc := s.ws[w];
    var a := if pc.Leaving? then Leave(w) else Mark(w);
    if pc.Writing? && pc.left != {} {
      var b: nat :| b in pc.left;
      Bounded(P, pc.needed[0]);
      a := WriteByte(w, b);
    }
    OneAction(P, s, a);
    var s1 := P.Apply(s, a);
    LeadsInv(P, s, [a], s1);
    if pc.Leaving? {
      return [a], s1;
    }
    var more;
    more, s' := Release(P, s1, w);
    Then(P, s, [a], s1, more, s');
    acts := [a] + more;
  }

  lemma LeadsInv(P: Cache, s: State, acts: seq<Action>, s': State)
    requires P.Valid() && Leads(P, s, acts, s')
    ensures Inv(P, s') && Sized(P, s') && |s'.ws| == |s.ws|
  {
    Shaped(P, s');
  }

  /** A call loads the chunks it needs, waiting for others where they are at work. */
  lemma {:induction false} Load(P: Cache, s: State, w: nat) returns (acts: seq<Action>, s': State)
    requires P.Valid() && Inv(P, s) && w < |s.ws| && s.ws[w].Loading?
    ensures Leads(P, s, acts, s') && s'.ws[w] == Loading(s.ws[w].job, [])
    decreases |s.ws[w].needed|
  {
    hide Cache.Valid, Inv, Leads;
    var pc := s.ws[w];
    if pc.needed == [] {
      Nothing(P, s);
      return [], s;
    }
    AtPc(P, s, w);
    var c := pc.needed[0];
    assert c in pc.needed;
    var acts1, s1 := PassFirst(P, s, w);
    LeadsInv(P, s, acts1, s1);
    var more;
    more, s' := Load(P, s1, w);
    Then(P, s, acts1, s1, more, s');
    acts := acts1 + more;
  }

  /** Past the first chunk on the list: by loading it, by finding it spent, or after waiting for the call that loads it. */
  lemma PassFirst(P: Cache, s: State, w: nat) returns (acts: seq<Action>, s': State)
    requires P.Valid() && Inv(P, s) && w < |s.ws| && s.ws[w].Loading? && s.ws[w].needed != []
    ensures Leads(P, s, acts, s') && s'.ws[w] == Loading(s.ws[w].job, s.ws[w].needed[1..])
  {
    hide Cache.Valid, Inv, Leads;
    AtPc(P, s, w);
    var c := s.ws[w].needed[0];
    assert c in s.ws[w].needed;
    match s.once[c] {
      case Spent =>
        OneAction(P, s, Pass(w));
        return [Pass(w)], P.Apply(s, Pass(w));
      case Fresh =>
        OneAction(P, s, Enter(w));
        var s1 := P.Apply(s, Enter(w));
        LeadsInv(P, s, [Enter(w)], s1);
        var more;
        more, s' := Release(P, s1, w);
        Then(P, s, [Enter(w)], s1, more, s');
        acts := [Enter(w)] + more;
      case Running(v) =>
        OwnerIs(P, s, c);
        var acts1, s1 := Release(P, s, v);
        LeadsInv(P, s, acts1, s1);
        OneAction(P, s1, Pass(w));
        s' := P.Apply(s1, Pass(w));
        Then(P, s, acts1, s1, [Pass(w)], s');
        acts := acts1 + [Pass(w)];
    }
  }

  lemma OwnerIs(P: Cache, s: State, c: nat)
    requires P.Valid() && Inv(P, s) && c < |P.chunks| && |s.once| == |P.chunks| && s.once[c].Running?
    ensures var v := s.once[c].w; v < |s.ws| && (s.ws[v].Writing? || s.ws[v].Leaving?) && s.ws[v].needed != [] && s.ws[v].needed[0] == c
  {
    AtChunk(P, s, c);
  }

  /** A call reads byte by byte until it has them all. */
  lemma {:induction false} ReadOn(P: Cache, s: State, w: nat) returns (acts: seq<Action>, s': State)
    requires P.Valid() && Inv(P, s) && w < |s.ws| && s.ws[w].Reading?
    ensures Leads(P, s, acts, s') && s'.ws[w].Finished? && s'.ws[w].job == s.ws[w].job
    decreases if s.ws[w].job.Read? then P.Want(s.ws[w].job.off, s.ws[w].job.len) - |s.ws[w].got| else 0
  {
    hide Cache.Valid, Inv, Leads;
    AtPc(P, s, w);
    var pc := s.ws[w];
    if |pc.got| == P.Want(pc.job.off, pc.job.len) {
      OneAction(P, s, Finish(w));
      return [Finish(w)], P.Apply(s, Finish(w));
    }
    OneAction(P, s, ReadByte(w));
    var s1 := P.Apply(s, ReadByte(w));
    LeadsInv(P, s, [ReadByte(w)], s1);
    var more;
    more, s' := ReadOn(P, s1, w);
    Then(P, s, [ReadByte(w)], s1, more, s');
    acts := [ReadByte(w)] + more;
  }

  lemma StartAndRead(P: Cache, s: State, w: nat) returns (acts: seq<Action>, s': State)
    requires P.Valid() && Inv(P, s) && w < |s.ws| && s.ws[w].Loading? && s.ws[w].job.Read?
    ensures Leads(P, s, acts, s') && s'.ws[w].Finished? && s'.ws[w].job == s.ws[w].job
  {
    hide Cache.Valid, Inv, Leads;
    var acts1, s1 := Load(P, s, w);
    LeadsInv(P, s, acts1, s1);
    OneAction(P, s1, Start(w));
    var s2 := P.Apply(s1, Start(w));
    Then(P, s, acts1, s1, [Start(w)], s2);
    LeadsInv(P, s1, [Start(w)], s2);
    var more;
    more, s' := ReadOn(P, s2, w);
    acts := acts1 + [Start(w)];
    Then(P, s, acts, s2, more, s');
    acts := acts + more;
  }

  /** In every interleaving, a read that has begun and has not failed can be brought to its end, which is a success, without any load failing. */
  lemma {:induction false} EveryReadCanFinish(P: Cache, s: State, acts: seq<Action>, s': State, w: nat)
    returns (more: seq<Action>, s'': State)
    requires P.Valid() && P.Initial(s) && P.Reaches(s, acts, s') && w < |s'.ws|
    requires !s'.ws[w].Idle? && s'.ws[w].job.Read? && !s'.ws[w].Errored?
    ensures P.Reaches(s', more, s'') && WithoutFailure(more) && w < |s''.ws| && s''.ws[w].Finished? && s''.ws[w].job == s'.ws[w].job
  {
    InitialInv(P, s);
    RunKeeps(P, s, acts, s');
    hide Cache.Valid, Inv, Cache.Initial, Cache.Reaches;
    match s'.ws[w] {
      case Finished(_, _) =>
        Nothing(P, s');
        more, s'' := [], s';
      case Reading(_, _) => more, s'' := ReadOn(P, s', w);
      case Loading(_, _) => more, s'' := StartAndRead(P, s', w);
      case _ =>
        var acts1, s1 := Release(P, s', w);
        LeadsInv(P, s', acts1, s1);
        var acts2;
        acts2, s'' := StartAndRead(P, s1, w);
        Then(P, s', acts1, s1, acts2, s'');
        more := acts1 + acts2;
    }
  }

  /** A read fails only if a load of its own does. */
  lemma {:induction false} ErrorIsOwnFailure(P: Cache, s: State, acts: seq<Action>, s': State, w: nat)
    requires P.Reaches(s, acts, s') && w < |s.ws| && w < |s'.ws| && !s.ws[w].Errored? && s'.ws[w].Errored?
    ensures exists k :: 0 <= k < |acts| && acts[k] == Fail(w)
    decreases |acts|
  {
    if acts != [] {
      var a, s1 := acts[0], P.Apply(s, acts[0]);
      if s1.ws[w].Errored? {
        assert a == Fail(w);
      } else {
        hide Cache.Apply, Cache.Enabled;
        SameCalls(P, s, [a], s1) by { OneStep(P, s, a, s1, [], s1); }
        ErrorIsOwnFailure(P, s1, acts[1..], s', w);
        var k :| 0 <= k < |acts[1..]| && acts[1..][k] == Fail(w);
        assert acts[k + 1] == acts[1..][k];
      }
    }
  }

  /** A chunk whose load has begun is never loaded again. */
  lemma {:induction false} LoadedOnce(P: Cache, s: State, acts: seq<Action>, s': State, c: nat, w: nat)
    requires P.Reaches(s, acts, s') && c < |s.once| && s.once[c] != Fresh
    ensures c < |s'.once| && s'.once[c] != Fresh
    ensures P.Enabled(s', Enter(w)) ==> s'.ws[w].needed[0] != c
    decreases |acts|
  {
    if acts != [] { LoadedOnce(P, P.Apply(s, acts[0]), acts[1..], s', c, w); }
  }
}
