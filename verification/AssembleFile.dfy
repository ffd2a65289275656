/** From the plan to the file: any run of the workers over a plan the sequencer made rebuilds the blob. */
module AssembleFile {
  import opened Prelude
  import opened Chunking
  import SelfSeed
  import opened Planning
  import opened Sequencer
  import Assembly
  import AssemblyProof
  import AssemblyLive
  import opened Retry

  function Sourced(plan: seq<Candidate>): (s: seq<bool>)
    ensures |s| == |plan| && forall i :: 0 <= i < |plan| ==> s[i] == plan[i].source.Some?
  {
    seq(|plan|, i requires 0 <= i < |plan| => plan[i].source.Some?)
  }

  /** The workers are fed the plan's segments, and their index and store are sound. */
  ghost predicate Fed(P: Assembly.Plan, plan: seq<Candidate>) {
    && P.segs == Segments(plan) && P.sourced == Sourced(plan)
    && (forall c :: 0 <= c < |P.chunks| ==> P.GoodChunk(c))
    && P.EndOf(|P.chunks|) == |P.blob|
  }

  lemma PlanIsValid(P: Assembly.Plan, seeds: seq<Seed>, vs: seq<SeedView>, plan: seq<Candidate>)
    requires Fed(P, plan) && |vs| == |seeds| && GoodPlan(seeds, vs, P.chunks, plan)
    ensures P.Valid()
  {
    hide Assembly.Plan.GoodChunk, SelfSeed.TileAt;
    forall j | 0 <= j < |P.segs| && !P.sourced[j]
      ensures P.segs[j].first == P.segs[j].last
    {
      assert Planned(seeds, vs, P.chunks, plan[j]);
    }
  }

  lemma {:induction false} PlannedAssemblyIsCorrect(P: Assembly.Plan, seeds: seq<Seed>, vs: seq<SeedView>, plan: seq<Candidate>,
                                 s: Assembly.State, acts: seq<Assembly.Action>, s': Assembly.State)
    requires Fed(P, plan) && |vs| == |seeds| && GoodPlan(seeds, vs, P.chunks, plan)
    requires P.Initial(s) && P.Reaches(s, acts, s')
    requires !s'.failed && s'.next == |P.segs| && forall w :: 0 <= w < |s'.ws| ==> s'.ws[w].Idle?
    ensures s'.file == P.blob
  {
    hide Assembly.Plan.Valid, Assembly.Plan.Initial, Assembly.Plan.Reaches;
    PlanIsValid(P, seeds, vs, plan);
    AssemblyProof.AssemblyCorrect(P, s, acts, s');
  }

  /** Whatever the workers do with the plan, if none fails the target ends up as the blob. */
  ghost predicate Rebuilds(index: seq<IndexChunk>, plan: seq<Candidate>) {
    forall P: Assembly.Plan, s, acts, s' ::
      P.chunks == index && Fed(P, plan) && P.Initial(s) && P.Reaches(s, acts, s') && Complete(P, s') ==> s'.file == P.blob
  }

  /** With at least one worker, and with seeds that are repaired or none, no run without a failure is stuck: it can be completed. */
  ghost predicate Completes(index: seq<IndexChunk>, plan: seq<Candidate>) {
    forall P: Assembly.Plan, s, acts, s' ::
      P.chunks == index && Fed(P, plan) && AssemblyLive.Repairs(P) && P.Initial(s) && P.Reaches(s, acts, s') && !s'.failed && |s'.ws| > 0 ==>
      CanComplete(P, s')
  }

  ghost predicate CanComplete(P: Assembly.Plan, s: Assembly.State) {
    exists more, s' :: P.Reaches(s, more, s') && AssemblyLive.WithoutFailure(more) && Complete(P, s') && s'.file == P.blob
  }

  lemma PlannedAssemblyCanComplete(P: Assembly.Plan, seeds: seq<Seed>, vs: seq<SeedView>, plan: seq<Candidate>,
                                   s: Assembly.State, acts: seq<Assembly.Action>, s': Assembly.State)
    requires Fed(P, plan) && |vs| == |seeds| && GoodPlan(seeds, vs, P.chunks, plan) && AssemblyLive.Repairs(P)
    requires P.Initial(s) && P.Reaches(s, acts, s') && !s'.failed && |s'.ws| > 0
    ensures CanComplete(P, s')
  {
    hide Assembly.Plan.Valid, Assembly.Plan.Initial, Assembly.Plan.Reaches, AssemblyLive.Repairs, GoodPlan, Fed;
    PlanIsValid(P, seeds, vs, plan);
    var more, s'' := AssemblyLive.EveryRunCanComplete(P, s, acts, s');
  }

  /** All segments have been handed out, all workers are done, and none has failed. */
  predicate Complete(P: Assembly.Plan, s: Assembly.State) {
    !s.failed && s.next == |P.segs| && forall w :: 0 <= w < |s.ws| ==> s.ws[w].Idle?
  }

  lemma CompleteMeans(P: Assembly.Plan, s: Assembly.State)
    requires Complete(P, s)
    ensures !s.failed && s.next == |P.segs| && forall w :: 0 <= w < |s.ws| ==> s.ws[w].Idle?
  {
  }

  /** AssembleFile as a whole: the plan that is found in the end, handed to the workers, rebuilds the blob. */
  method PlanFile(sq: SeedSequencer, action: Retry.Action, files: seq<Files>, digest: Digest)
    returns (plan: seq<Candidate>, attempt: nat, verdict: Verdict)
    requires sq.Valid() && IdsFixSizes(digest, sq.index) && sq.index != []
    modifies sq, Objects(sq.seeds)
    ensures verdict == Good ==> Rebuilds(sq.index, plan) && Completes(sq.index, plan)
    ensures action == Skip && |files| > Count(Usable(old(Views(sq.seeds)))) ==> verdict == Good
    ensures action == Regenerate && Stable(files) && |files| > Count(IsFile(old(Views(sq.seeds)))) ==> verdict != Again
  {
    hide Fed, Assembly.Plan.Initial, Assembly.Plan.Reaches, GoodPlan, AssemblyLive.Repairs, CanComplete, Complete, Fails, IdsFixSizes, SeedSequencer.Valid, Count, Usable, IsFile;
    plan, attempt, verdict := FindPlan(sq, action, files, digest);
    if verdict == Good {
      forall P: Assembly.Plan, s, acts, s' |
        P.chunks == sq.index && Fed(P, plan) && P.Initial(s) && P.Reaches(s, acts, s') && Complete(P, s')
        ensures s'.file == P.blob
      {
        CompleteMeans(P, s');
        PlannedAssemblyIsCorrect(P, sq.seeds, Views(sq.seeds), plan, s, acts, s');
      }
      forall P: Assembly.Plan, s, acts, s' |
        && P.chunks == sq.index && Fed(P, plan) && AssemblyLive.Repairs(P)
        && P.Initial(s) && P.Reaches(s, acts, s') && !s'.failed && |s'.ws| > 0
        ensures CanComplete(P, s')
      {
        PlannedAssemblyCanComplete(P, sq.seeds, Views(sq.seeds), plan, s, acts, s');
      }
    }
  }
}
