/**
 The failover group: concurrent callers share the index of the active store and move it on
 when that store fails. Asking a store and reporting its error are separate steps.
 */
module Failover {
  datatype Answer = Found | Missing | Broken

  /** Where a call stands; `asked` lists the stores it has asked and that failed. */
  datatype Pc =
    | Idle
    | Trying(asked: seq<nat>)
    | Asking(asked: seq<nat>, store: nat)
    | Failing(asked: seq<nat>, store: nat)      // the store has failed, errorFrom comes next
    | Returned(asked: seq<nat>, answer: Answer) // Broken: all attempts are used up

  datatype State = State(active: nat, failed: set<nat>, calls: seq<Pc>)

  datatype Action =
    | Invoke(w: nat)
    | Current(w: nat)
    | Respond(w: nat, answer: Answer)
    | ErrorFrom(w: nat)

  datatype Group = Group(n: nat, reliable: set<nat>) {
    /** At least one store; those in `reliable` never fail other than for a missing chunk. */
    predicate Valid() {
      n > 0
    }

    predicate Initial(s: State) {
      s.active == 0 && s.failed == {} && forall w :: 0 <= w < |s.calls| ==> s.calls[w] == Idle
    }

    predicate Enabled(s: State, a: Action) {
      && a.w < |s.calls|
      && match a
         case Invoke(w) => s.calls[w].Idle?
         case Current(w) => s.calls[w].Trying?
         case Respond(w, answer) => s.calls[w].Asking? && (answer == Broken ==> s.calls[w].store !in reliable)
         case ErrorFrom(w) => s.calls[w].Failing?
    }

    function Apply(s: State, a: Action): State
      requires Valid() && Enabled(s, a)
    {
      var w, pc := a.w, s.calls[a.w];
      match a
      case Invoke(_) => s.(calls := s.calls[w := Trying([])])
      case Current(_) => s.(calls := s.calls[w := if |pc.asked| < n then Asking(pc.asked, s.active) else Returned(pc.asked, Broken)])
      case Respond(_, answer) =>
        if answer == Broken then State(s.active, s.failed + {pc.store}, s.calls[w := Failing(pc.asked, pc.store)])
        else s.(calls := s.calls[w := Returned(pc.asked, answer)])
      case ErrorFrom(_) =>
        State(if pc.store == s.active then Next(s.active) else s.active, s.failed, s.calls[w := Trying(pc.asked + [pc.store])])
    }

    function Next(x: nat): nat
      requires Valid()
    {
      (x + 1) % n
    }

    ghost predicate Reaches(s: State, acts: seq<Action>, s': State)
      requires Valid()
      decreases |acts|
    {
      if acts == [] then s' == s else Enabled(s, acts[0]) && Reaches(Apply(s, acts[0]), acts[1..], s')
    }

    /** How many failovers lead from store x to store g. */
    function Distance(x: nat, g: nat): int {
      if x <= g then g - x else g + n - x
    }

    /** Attempts made and failovers still possible never exceed what the group has stores for. */
    predicate PcOk(s: State, g: nat, w: nat)
      requires w < |s.calls|
    {
      match s.calls[w]
      case Idle => true
      case Trying(asked) => |asked| + Distance(s.active, g) < n
      case Asking(asked, store) => store < n && |asked| + Distance(store, g) < n && Distance(s.active, g) <= Distance(store, g)
      case Failing(asked, store) =>
        store < n && store != g && store in s.failed && |asked| + Distance(store, g) < n && Distance(s.active, g) <= Distance(store, g)
      case Returned(asked, answer) => answer != Broken && |asked| < n
    }

    predicate Inv(s: State, g: nat) {
      s.active < n && forall w :: 0 <= w < |s.calls| ==> PcOk(s, g, w)
    }

    lemma NextIsCloser(x: nat, g: nat)
      requires Valid() && x < n && g < n && x != g
      ensures Next(x) < n && Distance(Next(x), g) == Distance(x, g) - 1
    {
      if x + 1 < n { SmallMod(x + 1); }
    }

    lemma NextIs(x: nat)
      requires Valid() && x < n
      ensures Next(x) == if x + 1 == n then 0 else x + 1
    {
      if x + 1 < n { SmallMod(x + 1); }
    }

    lemma SmallMod(x: nat)
      requires x < n
      ensures x % n == x
    {
    }

    lemma DistanceFacts(x: nat, y: nat, g: nat)
      requires x < n && y < n && g < n
      ensures 0 <= Distance(x, g) < n
      ensures Distance(x, g) == Distance(y, g) <==> x == y
    {
    }

    /** The only step that moves the group: it comes closer to g, or was past the failed store already. */
    lemma ErrorFromCloser(s: State, g: nat, a: Action)
      requires Valid() && g < n && Inv(s, g) && Enabled(s, a) && a.ErrorFrom?
      ensures var store, s' := s.calls[a.w].store, Apply(s, a);
              && s'.active < n && Distance(s'.active, g) < Distance(store, g) && Distance(s'.active, g) <= Distance(s.active, g)
    {
      hide Distance, Next;
      assert PcOk(s, g, a.w);
      NextIsCloser(s.calls[a.w].store, g);
      DistanceFacts(s.active, s.calls[a.w].store, g);
    }

    lemma StepKeeps(s: State, g: nat, a: Action)
      requires Valid() && g < n && g in reliable && Inv(s, g) && Enabled(s, a)
      ensures Inv(Apply(s, a), g)
      ensures Distance(Apply(s, a).active, g) <= Distance(s.active, g)
    {
      hide Distance, Next;
      assert PcOk(s, g, a.w);
      if a.ErrorFrom? { ErrorFromCloser(s, g, a); }
      DistanceFacts(s.active, s.active, g);
      var s' := Apply(s, a);
      forall w | 0 <= w < |s.calls|
        ensures PcOk(s', g, w)
      {
        assert PcOk(s, g, w);
      }
    }

    lemma {:induction false} RunKeeps(s: State, g: nat, acts: seq<Action>, s': State)
      requires Valid() && g < n && g in reliable && Inv(s, g) && Reaches(s, acts, s')
      ensures Inv(s', g)
      decreases |acts|
    {
      hide Inv, Enabled, Apply;
      if acts != [] {
        StepKeeps(s, g, acts[0]);
        RunKeeps(Apply(s, acts[0]), g, acts[1..], s');
      }
    }

    /** With one reliable store, a call that returns has found the chunk or knows it is missing, and asked no more stores than there are. */
    lemma {:induction false} NeverGivesUp(s: State, g: nat, acts: seq<Action>, s': State, w: nat)
      requires Valid() && g < n && g in reliable && Initial(s) && Reaches(s, acts, s') && w < |s'.calls|
      ensures s'.calls[w].Returned? ==> s'.calls[w].answer != Broken && |s'.calls[w].asked| + 1 <= n
      ensures s'.calls[w].Trying? || s'.calls[w].Asking? || s'.calls[w].Failing? ==> |s'.calls[w].asked| < n
    {
      RunKeeps(s, g, acts, s');
      assert PcOk(s', g, w);
    }

    // ---------- only failed stores are left ----------

    predicate Blamed(s: State) {
      forall w :: 0 <= w < |s.calls| && s.calls[w].Failing? ==> s.calls[w].store in s.failed
    }

    lemma {:induction false} RunBlames(s: State, acts: seq<Action>, s': State)
      requires Valid() && Blamed(s) && Reaches(s, acts, s')
      ensures Blamed(s')
      decreases |acts|
    {
      if acts != [] {
        assert Blamed(Apply(s, acts[0]));
        RunBlames(Apply(s, acts[0]), acts[1..], s');
      }
    }

    /** In every interleaving, reliable stores or not, the active store changes only from one that has failed to the next. */
    lemma {:induction false} MovesOffFailedOnly(s: State, acts: seq<Action>, s': State, a: Action)
      requires Valid() && Initial(s) && Reaches(s, acts, s') && Enabled(s', a) && Apply(s', a).active != s'.active
      ensures s'.active in s'.failed && a.ErrorFrom? && Apply(s', a).active == Next(s'.active)
    {
      RunBlames(s, acts, s');
    }

    lemma {:induction false} ReliableNeverFails(s: State, acts: seq<Action>, s': State, g: nat)
      requires Valid() && g in reliable && g !in s.failed && Reaches(s, acts, s')
      ensures g !in s'.failed
      decreases |acts|
    {
      if acts != [] { ReliableNeverFails(Apply(s, acts[0]), acts[1..], s', g); }
    }

    /** Once a reliable store is active it stays so. */
    lemma {:induction false} StaysActive(s: State, acts: seq<Action>, mid: State, more: seq<Action>, s': State)
      requires Valid() && Initial(s) && Reaches(s, acts, mid) && Reaches(mid, more, s') && mid.active in reliable
      ensures s'.active == mid.active
      decreases |more|
    {
      if more != [] {
        var a := more[0];
        ReliableNeverFails(s, acts, mid, mid.active);
        if Apply(mid, a).active != mid.active { MovesOffFailedOnly(s, acts, mid, a); }
        Extend(s, acts, mid, a);
        StaysActive(s, acts + [a], Apply(mid, a), more[1..], s');
      }
    }

    lemma {:induction false} Extend(s: State, acts: seq<Action>, mid: State, a: Action)
      requires Valid() && Reaches(s, acts, mid) && Enabled(mid, a)
      ensures Reaches(s, acts + [a], Apply(mid, a))
      decreases |acts|
    {
      if acts == [] {
        assert acts + [a] == [a] && [a][1..] == [];
      } else {
        Extend(Apply(s, acts[0]), acts[1..], mid, a);
        assert (acts + [a])[1..] == acts[1..] + [a];
      }
    }
  }

  // ---------- without a reliable store ----------

  predicate NoneReliable(G: Group) {
    forall x :: 0 <= x < G.n ==> x !in G.reliable
  }

  /** The k stores from a on. */
  function Upto(a: nat, k: nat): (r: seq<nat>)
    ensures |r| == k && forall i :: 0 <= i < k ==> r[i] == a + i
  {
    if k == 0 then [] else Upto(a, k - 1) + [a + k - 1]
  }

  /** A call can fail on any stores in a row, from the active one up to the last, and moves the group past them. */
  lemma {:induction false} FailsOn(G: Group, s: State, w: nat, k: nat) returns (acts: seq<Action>, s': State)
    requires G.Valid() && NoneReliable(G) && w < |s.calls| && s.calls[w].Trying?
    requires s.active < G.n && s.active + k <= G.n && |s.calls[w].asked| + k <= G.n
    ensures G.Reaches(s, acts, s')
    ensures s'.calls == s.calls[w := Trying(s.calls[w].asked + Upto(s.active, k))]
    ensures s'.active == if s.active + k == G.n then 0 else s.active + k
    decreases k
  {
    hide Group.Reaches, Group.Enabled, Group.Apply, NoneReliable;
    var asked := s.calls[w].asked;
    if k == 0 {
      NoSteps(G, s);
      acts, s' := [], s;
      assert asked + [] == asked;
    } else {
      var acts0, s0 := FailsOn(G, s, w, k - 1);
      var acts1;
      acts1, s' := FailsOnce(G, s0, w);
      assert asked + Upto(s.active, k - 1) + [s0.active] == asked + Upto(s.active, k);
      Join(G, s, acts0, s0, acts1, s');
      acts := acts0 + acts1;
    }
  }

  lemma FailsOnce(G: Group, s: State, w: nat) returns (acts: seq<Action>, s': State)
    requires G.Valid() && NoneReliable(G) && w < |s.calls| && s.calls[w].Trying? && s.active < G.n && |s.calls[w].asked| < G.n
    ensures G.Reaches(s, acts, s')
    ensures s'.calls == s.calls[w := Trying(s.calls[w].asked + [s.active])]
    ensures s'.active == if s.active + 1 == G.n then 0 else s.active + 1
  {
    hide Group.Next;
    var s1 := G.Apply(s, Current(w));
    var s2 := G.Apply(s1, Respond(w, Broken));
    s' := G.Apply(s2, ErrorFrom(w));
    G.NextIs(s.active);
    hide Group.Reaches;
    NoSteps(G, s');
    Step(G, s2, ErrorFrom(w), [], s');
    Step(G, s1, Respond(w, Broken), [ErrorFrom(w)] + [], s');
    acts := [Current(w)] + ([Respond(w, Broken)] + ([ErrorFrom(w)] + []));
    Step(G, s, Current(w), [Respond(w, Broken)] + ([ErrorFrom(w)] + []), s');
  }

  lemma NoSteps(G: Group, s: State)
    requires G.Valid()
    ensures G.Reaches(s, [], s)
  {
  }

  /** Some run gives up. */
  ghost predicate CanGiveUp(G: Group)
    requires G.Valid()
  {
    exists s, acts, s' :: G.Initial(s) && G.Reaches(s, acts, s') && GaveUp(s')
  }

  predicate GaveUp(s: State) {
    exists w :: 0 <= w < |s.calls| && s.calls[w].Returned? && s.calls[w].answer == Broken
  }

  /** c calls that have not begun. */
  function Start(c: nat): (s: State)
    ensures |s.calls| == c
  {
    State(0, {}, seq(c, _ => Idle))
  }

  lemma StartIsInitial(G: Group, c: nat)
    ensures G.Initial(Start(c))
  {
  }

  /** A group can give up exactly if none of its stores is reliable. */
  lemma GivesUpIff(G: Group)
    requires G.Valid()
    ensures CanGiveUp(G) <==> NoneReliable(G)
  {
    hide Group.Reaches, Group.Initial, Start, Upto;
    if NoneReliable(G) {
      var s := Start(1);
      StartIsInitial(G, 1);
      var acts, s' := LoneCallFails(G);
      G.Extend(s, acts, s', Current(0));
      var last := G.Apply(s', Current(0));
      assert last.calls[0].Returned? && GaveUp(last);
    } else {
      forall s, acts, s' | G.Initial(s) && G.Reaches(s, acts, s')
        ensures !GaveUp(s')
      {
        ReliableSaves(G, s, acts, s');
      }
    }
  }

  lemma LoneCallFails(G: Group) returns (acts: seq<Action>, s': State)
    requires G.Valid() && NoneReliable(G)
    ensures G.Reaches(Start(1), acts, s') && |s'.calls| == 1 && s'.calls[0] == Trying(Upto(0, G.n))
  {
    var s := Start(1);
    var s0 := G.Apply(s, Invoke(0));
    var acts0;
    acts0, s' := FailsOn(G, s0, 0, G.n);
    assert [] + Upto(0, G.n) == Upto(0, G.n);
    Step(G, s, Invoke(0), acts0, s');
    acts := [Invoke(0)] + acts0;
  }

  lemma {:induction false} ReliableSaves(G: Group, s: State, acts: seq<Action>, s': State)
    requires G.Valid() && !NoneReliable(G) && G.Initial(s) && G.Reaches(s, acts, s')
    ensures !GaveUp(s')
  {
    hide Group.Reaches, Group.Initial;
    var g: nat :| g < G.n && g in G.reliable;
    forall w | 0 <= w < |s'.calls|
      ensures s'.calls[w].Returned? ==> s'.calls[w].answer != Broken
    {
      G.NeverGivesUp(s, g, acts, s', w);
    }
  }

  // ---------- giving up without having asked every store ----------

  /** Some call has given up and there is a store it has not asked. */
  predicate LeftOut(G: Group, s: State) {
    exists w, x: nat :: 0 <= w < |s.calls| && s.calls[w].Returned? && s.calls[w].answer == Broken && x < G.n && x !in s.calls[w].asked
  }

  /** With c calls, some run comes to that. */
  ghost predicate CanLeaveOut(G: Group, c: nat)
    requires G.Valid()
  {
    exists s, acts, s' :: G.Initial(s) && |s.calls| == c && G.Reaches(s, acts, s') && LeftOut(G, s')
  }

  /**
   "When all stores returned a failure, the group will pass up the failure": a call that gives up has
   asked every store, unless no store is reliable, there are two stores and a second call.
   */
  lemma AsksAllUnless(G: Group, c: nat)
    requires G.Valid()
    ensures CanLeaveOut(G, c) <==> NoneReliable(G) && G.n >= 2 && c >= 2
  {
    hide Group.Reaches, Group.Initial, LeftOut, NoneReliable, GaveUp;
    if NoneReliable(G) && G.n >= 2 && c >= 2 {
      StartIsInitial(G, c);
      var acts, s' := Overtaken(G, c);
      OvertakenLeavesOut(G, s');
    } else {
      forall s, acts, s' | G.Initial(s) && |s.calls| == c && G.Reaches(s, acts, s')
        ensures !LeftOut(G, s')
      {
        if !NoneReliable(G) {
          ReliableSaves(G, s, acts, s');
          LeftOutGaveUp(G, s');
        } else if c < 2 {
          LoneCallAsksAll(G, s, acts, s');
        } else {
          OnlyStoreIsAsked(G, s, acts, s');
        }
      }
    }
  }

  lemma LeftOutGaveUp(G: Group, s: State)
    ensures LeftOut(G, s) ==> GaveUp(s)
  {
  }

  /** Call 0 fails on store 0; call 1 fails on all others, which moves the group back to store 0; call 0 goes on from there. */
  lemma Overtaken(G: Group, c: nat) returns (acts: seq<Action>, s': State)
    requires G.Valid() && NoneReliable(G) && G.n >= 2 && c >= 2
    ensures G.Reaches(Start(c), acts, s') && |s'.calls| == c && s'.calls[0] == Returned([0] + Upto(0, G.n - 1), Broken)
  {
    hide Group.Reaches, NoneReliable, Upto;
    var s, n := Start(c), G.n;
    var s1 := G.Apply(s, Invoke(0));
    var acts1, s2 := FailsOn(G, s1, 0, 1);
    assert [] + Upto(0, 1) == [0];
    var s3 := G.Apply(s2, Invoke(1));
    var acts2, s4 := FailsOn(G, s3, 1, n - 1);
    var acts3, s5 := FailsOn(G, s4, 0, n - 1);
    s' := G.Apply(s5, Current(0));
    Step(G, s, Invoke(0), acts1, s2);
    Join(G, s, [Invoke(0)] + acts1, s2, [Invoke(1)] + acts2, s4) by { Step(G, s2, Invoke(1), acts2, s4); }
    acts := [Invoke(0)] + acts1 + ([Invoke(1)] + acts2);
    Join(G, s, acts, s4, acts3, s5);
    acts := acts + acts3;
    G.Extend(s, acts, s5, Current(0));
    acts := acts + [Current(0)];
  }

  lemma OvertakenLeavesOut(G: Group, s: State)
    requires G.n >= 2 && |s.calls| > 0 && s.calls[0] == Returned([0] + Upto(0, G.n - 1), Broken)
    ensures LeftOut(G, s)
  {
    assert G.n - 1 !in s.calls[0].asked;
  }

  /** The attempts of a lone call are 0, 1, 2, .. in this order. */
  predicate InTurn(G: Group, s: State)
    requires G.Valid()
  {
    && |s.calls| <= 1
    && forall w :: 0 <= w < |s.calls| ==>
         match s.calls[w]
         case Idle => s.active == 0
         case Trying(asked) => |asked| <= G.n && asked == Upto(0, |asked|) && s.active == if |asked| == G.n then 0 else |asked|
         case Asking(asked, store) => |asked| < G.n && asked == Upto(0, |asked|) && store == s.active == |asked|
         case Failing(asked, store) => |asked| < G.n && asked == Upto(0, |asked|) && store == s.active == |asked|
         case Returned(asked, answer) => answer == Broken ==> asked == Upto(0, G.n)
  }

  lemma InTurnStep(G: Group, s: State, a: Action)
    requires G.Valid() && InTurn(G, s) && G.Enabled(s, a)
    ensures InTurn(G, G.Apply(s, a))
  {
    hide Group.Next, Upto;
    if |s.calls| == 1 {
      var k := if s.calls[0].Idle? then 0 else |s.calls[0].asked|;
      UptoSnoc(0, k);
      if s.active < G.n { G.NextIs(s.active); }
    }
  }

  lemma UptoSnoc(a: nat, k: nat)
    ensures Upto(a, 0) == [] && Upto(a, k + 1) == Upto(a, k) + [a + k]
  {
  }

  lemma {:induction false} InTurnRun(G: Group, s: State, acts: seq<Action>, s': State)
    requires G.Valid() && InTurn(G, s) && G.Reaches(s, acts, s')
    ensures InTurn(G, s')
    decreases |acts|
  {
    hide InTurn, Group.Enabled, Group.Apply;
    if acts != [] {
      InTurnStep(G, s, acts[0]);
      InTurnRun(G, G.Apply(s, acts[0]), acts[1..], s');
    }
  }

  lemma {:induction false} LoneCallAsksAll(G: Group, s: State, acts: seq<Action>, s': State)
    requires G.Valid() && G.Initial(s) && |s.calls| < 2 && G.Reaches(s, acts, s')
    ensures !LeftOut(G, s')
  {
    InTurnRun(G, s, acts, s');
    forall x: nat | x < G.n
      ensures x in Upto(0, G.n)
    {
      assert Upto(0, G.n)[x] == x;
    }
  }

  /** With a single store, that is the one every attempt asks. */
  predicate Only(s: State) {
    && s.active == 0
    && forall w :: 0 <= w < |s.calls| ==>
         match s.calls[w]
         case Idle => true
         case Trying(asked) => |asked| > 0 ==> 0 in asked
         case Asking(asked, store) => store == 0
         case Failing(asked, store) => store == 0
         case Returned(asked, answer) => answer == Broken ==> 0 in asked
  }

  lemma OnlyStep(G: Group, s: State, a: Action)
    requires G.n == 1 && Only(s) && G.Enabled(s, a)
    ensures Only(G.Apply(s, a))
  {
  }

  lemma {:induction false} OnlyRun(G: Group, s: State, acts: seq<Action>, s': State)
    requires G.n == 1 && Only(s) && G.Reaches(s, acts, s')
    ensures Only(s')
    decreases |acts|
  {
    hide Only, Group.Enabled, Group.Apply;
    if acts != [] {
      OnlyStep(G, s, acts[0]);
      OnlyRun(G, G.Apply(s, acts[0]), acts[1..], s');
    }
  }

  lemma {:induction false} OnlyStoreIsAsked(G: Group, s: State, acts: seq<Action>, s': State)
    requires G.n == 1 && G.Initial(s) && G.Reaches(s, acts, s')
    ensures !LeftOut(G, s')
  {
    OnlyRun(G, s, acts, s');
  }

  /** For example, with two stores and two calls a call can use up its attempts on the first store alone. */
  lemma GivesUpWithoutAskingAll() returns (acts: seq<Action>, s: State)
    ensures var G := Group(2, {});
            G.Initial(Start(2)) && G.Reaches(Start(2), acts, s) && |s.calls| == 2 && s.calls[0] == Returned([0, 0], Broken)
  {
    var G := Group(2, {});
    StartIsInitial(G, 2);
    acts, s := Overtaken(G, 2);
    assert [0] + Upto(0, 1) == [0, 0];
  }

  lemma {:induction false} Step(G: Group, s: State, a: Action, acts: seq<Action>, s': State)
    requires G.Valid() && G.Enabled(s, a) && G.Reaches(G.Apply(s, a), acts, s')
    ensures G.Reaches(s, [a] + acts, s')
  {
    assert ([a] + acts)[1..] == acts;
  }

  lemma {:induction false} Join(G: Group, s: State, a: seq<Action>, mid: State, b: seq<Action>, s': State)
    requires G.Valid() && G.Reaches(s, a, mid) && G.Reaches(mid, b, s')
    ensures G.Reaches(s, a + b, s')
    decreases |a|
  {
    if a == [] {
      assert a + b == b;
    } else {
      Join(G, G.Apply(s, a[0]), a[1..], mid, b, s');
      assert (a + b)[1..] == a[1..] + b;
    }
  }

  // ---------- what a call returns ----------

  /** A call that found its chunk, or learnt that it is missing, returns what a store told it. */
  lemma {:induction false} AnswerIsAStores(G: Group, s: State, acts: seq<Action>, s': State, w: nat)
    requires G.Valid() && G.Reaches(s, acts, s') && w < |s.calls| && w < |s'.calls| && !s.calls[w].Returned?
    requires s'.calls[w].Returned? && s'.calls[w].answer != Broken
    ensures exists k :: 0 <= k < |acts| && acts[k] == Respond(w, s'.calls[w].answer)
    decreases |acts|
  {
    if acts != [] {
      var a, s1 := acts[0], G.Apply(s, acts[0]);
      if s1.calls[w].Returned? {
        ReturnedStays(G, s1, acts[1..], s', w);
        assert s'.calls[w].answer != Broken ==> a == Respond(w, s'.calls[w].answer);
      } else {
        hide Group.Apply, Group.Enabled;
        AnswerIsAStores(G, s1, acts[1..], s', w);
        var k :| 0 <= k < |acts[1..]| && acts[1..][k] == Respond(w, s'.calls[w].answer);
        assert acts[k + 1] == acts[1..][k];
      }
    }
  }

  lemma {:induction false} ReturnedStays(G: Group, s: State, acts: seq<Action>, s': State, w: nat)
    requires G.Valid() && G.Reaches(s, acts, s') && w < |s.calls| && s.calls[w].Returned?
    ensures w < |s'.calls| && s'.calls[w] == s.calls[w]
    decreases |acts|
  {
    if acts != [] { ReturnedStays(G, G.Apply(s, acts[0]), acts[1..], s', w); }
  }

  predicate InRange(G: Group, s: State) {
    s.active < G.n && forall w :: 0 <= w < |s.calls| && (s.calls[w].Asking? || s.calls[w].Failing?) ==> |s.calls[w].asked| < G.n
  }

  lemma {:induction false} RunInRange(G: Group, s: State, acts: seq<Action>, s': State)
    requires G.Valid() && InRange(G, s) && G.Reaches(s, acts, s')
    ensures InRange(G, s')
    decreases |acts|
  {
    if acts != [] { RunInRange(G, G.Apply(s, acts[0]), acts[1..], s'); }
  }

  /** The call has returned without using up its attempts. */
  predicate HasFound(s: State, w: nat) {
    w < |s.calls| && s.calls[w].Returned? && s.calls[w].answer == Found
  }

  /** Whatever the others have done, a call that has an attempt left finds its chunk if the store it asks next has it. */
  lemma {:induction false} CallCanReturn(G: Group, s: State, acts: seq<Action>, s': State, w: nat) returns (more: seq<Action>, s'': State)
    requires G.Valid() && G.Initial(s) && G.Reaches(s, acts, s') && w < |s'.calls|
    requires s'.calls[w].Trying? || s'.calls[w].Asking? || s'.calls[w].Failing?
    requires |s'.calls[w].asked| + (if s'.calls[w].Failing? then 1 else 0) < G.n
    ensures G.Reaches(s', more, s'') && HasFound(s'', w)
    ensures forall k :: 0 <= k < |more| ==> more[k] != Respond(w, Broken)
  {
    RunInRange(G, s, acts, s');
    var t, pre := s', [];
    NoSteps(G, s');
    if t.calls[w].Failing? {
      Step(G, t, ErrorFrom(w), [], G.Apply(t, ErrorFrom(w)));
      t, pre := G.Apply(t, ErrorFrom(w)), [ErrorFrom(w)] + [];
    }
    if t.calls[w].Trying? {
      G.Extend(s', pre, t, Current(w));
      t, pre := G.Apply(t, Current(w)), pre + [Current(w)];
    }
    G.Extend(s', pre, t, Respond(w, Found));
    more, s'' := pre + [Respond(w, Found)], G.Apply(t, Respond(w, Found));
  }

  /** A store may find a chunk, miss it, or fail, the last unless it is reliable. */
  lemma StoresAnswerAnything(G: Group, s: State, w: nat, answer: Answer)
    requires G.Valid() && w < |s.calls| && s.calls[w].Asking?
    ensures G.Enabled(s, Respond(w, answer)) <==> answer != Broken || s.calls[w].store !in G.reliable
  {
  }
}
