/**
 Finding a plan that can be trusted: the seeds a plan uses are checked against their files,
 and a plan that fails is made anew without, or with a fresh index of, the seeds at fault.
 */
module Retry {
  import opened Chunking
  import opened SelfSeed
  import opened Prelude
  import opened Planning
  import opened Sequencer

  /** The readable files by name. */
  type Files = map<string, seq<Byte>>
  type Digest = seq<Byte> -> ChunkID

  datatype Action = BailOut | Skip | Regenerate

  // ---------- validation ----------

  predicate ChunkMatches(data: seq<Byte>, digest: Digest, c: IndexChunk) {
    c.End() <= |data| && digest(data[c.start..c.End()]) == c.id
  }

  /** The file can be read and has the indexed data. */
  predicate Matches(files: Files, digest: Digest, file: string, chunks: seq<IndexChunk>) {
    file in files && forall i :: 0 <= i < |chunks| ==> ChunkMatches(files[file], digest, chunks[i])
  }

  predicate Fails(files: Files, digest: Digest, c: Candidate) {
    c.IsFileSeed() && !Matches(files, digest, c.source.value.file, c.source.value.chunks)
  }

  ghost predicate FromFileSeed(c: Candidate) {
    c.IsFileSeed() ==> c.seed.Some? && c.seed.value.File?
  }

  ghost function Used(plan: seq<Candidate>): set<FileSeed> {
    set c | c in plan && c.IsFileSeed() && c.seed.Some? && c.seed.value.File? :: c.seed.value.f
  }

  method ValidateSegment(files: Files, digest: Digest, source: Source) returns (ok: bool)
    requires source.FileSegment? && source.file in files
    ensures ok <==> Matches(files, digest, source.file, source.chunks)
  {
    var data := files[source.file];
    for i := 0 to |source.chunks|
      invariant forall j :: 0 <= j < i ==> ChunkMatches(data, digest, source.chunks[j])
    {
      if !ChunkMatches(data, digest, source.chunks[i]) {
        return false;
      }
    }
    return true;
  }

  /** Seeds are only ever marked, and only for a segment that fails. */
  twostate predicate OnlyMarked(plan: seq<Candidate>, files: Files, digest: Digest)
    reads Used(plan)
  {
    forall f :: f in Used(plan) && f.isInvalid != old(f.isInvalid) ==>
      f.isInvalid && exists c :: c in plan && c.seed == Some(File(f)) && Fails(files, digest, c)
  }

  /**
   Plan.Validate. Opening the files comes first; then the segments are handed to concurrent
   workers in the order of the plan. After a failure the segments not yet handed out may be dropped.
   */
  method Validate(plan: seq<Candidate>, files: Files, digest: Digest) returns (ok: bool, ghost bad: nat)
    requires forall c :: c in plan ==> FromFileSeed(c)
    modifies Used(plan)`isInvalid
    ensures OnlyMarked(plan, files, digest)
    ensures ok <==> forall c :: c in plan ==> !Fails(files, digest, c)
    ensures ok ==> forall f :: f in Used(plan) ==> f.isInvalid == old(f.isInvalid)
    ensures !ok ==> bad < |plan| && Fails(files, digest, plan[bad]) && plan[bad].seed.Some? && plan[bad].seed.value.File?
    ensures !ok ==> plan[bad].seed.value.f.isInvalid
  {
    hide Matches;
    bad := 0;
    for i := 0 to |plan|
      invariant forall j :: 0 <= j < i && plan[j].IsFileSeed() ==> plan[j].source.value.FileName() in files
      invariant forall f :: f in Used(plan) ==> f.isInvalid == old(f.isInvalid)
    {
      assert FromFileSeed(plan[i]);
      if plan[i].IsFileSeed() && plan[i].source.value.FileName() !in files {
        MissingFile(files, digest, plan[i]);
        plan[i].seed.value.f.SetInvalid(true);
        return false, i;
      }
    }
    ok := true;
    for i := 0 to |plan|
      invariant OnlyMarked(plan, files, digest)
      invariant ok ==> forall j :: 0 <= j < i ==> !Fails(files, digest, plan[j])
      invariant ok ==> forall f :: f in Used(plan) ==> f.isInvalid == old(f.isInvalid)
      invariant !ok ==> bad < i && Fails(files, digest, plan[bad]) && plan[bad].seed.Some? && plan[bad].seed.value.File?
      invariant !ok ==> plan[bad].seed.value.f.isInvalid
    {
      var dropped := *;
      if !ok && dropped {
        return;
      }
      assert FromFileSeed(plan[i]);
      if plan[i].IsFileSeed() {
        var good := ValidateSegment(files, digest, plan[i].source.value);
        if !good {
          plan[i].seed.value.f.SetInvalid(true);
          ok, bad := false, i;
        }
      }
    }
  }

  lemma MissingFile(files: Files, digest: Digest, c: Candidate)
    requires c.IsFileSeed() && c.source.value.FileName() !in files
    ensures Fails(files, digest, c)
  {
  }

  // ---------- regeneration ----------

  /** What IndexFromFile gives for a file: consecutive chunks with the IDs of its data. */
  predicate IsIndexOf(files: Files, digest: Digest, file: string, chunks: seq<IndexChunk>) {
    Matches(files, digest, file, chunks) && Consecutive(chunks)
  }

  ghost predicate Regenerated(files: Files, digest: Digest, v: SeedView, v': SeedView) {
    v' == v || (v.FileView? && v'.FileView? && v'.file == v.file && v'.canReflink == v.canReflink && !v'.invalid
                && IsIndexOf(files, digest, v.file, v'.chunks))
  }

  /** There is a seed to be regenerated whose file cannot be read. */
  ghost predicate Unreadable(vs: seq<SeedView>, files: Files) {
    exists i :: 0 <= i < |vs| && vs[i].FileView? && vs[i].invalid && vs[i].file !in files
  }

  /** RegenerateInvalidSeeds: it stops at a seed whose file cannot be read. */
  method RegenerateInvalidSeeds(seeds: seq<Sequencer.Seed>, files: Files, digest: Digest) returns (ok: bool)
    requires forall s :: s in seeds && s.File? ==> s.f.Valid()
    modifies Objects(seeds)
    ensures forall s :: s in seeds && s.File? ==> s.f.Valid()
    ensures forall s :: s in seeds ==> Regenerated(files, digest, old(View(s)), View(s))
    ensures ok ==> forall s :: s in seeds && s.File? ==> !s.f.isInvalid
    ensures !ok ==> Unreadable(Views(seeds), files)
  {
    hide Matches, Consecutive, Record;
    for i := 0 to |seeds|
      invariant forall s :: s in seeds && s.File? ==> s.f.Valid()
      invariant forall s :: s in seeds ==> Regenerated(files, digest, old(View(s)), View(s))
      invariant forall j :: 0 <= j < i && seeds[j].File? ==> !seeds[j].f.isInvalid
    {
      if seeds[i].File? && seeds[i].f.isInvalid {
        var f := seeds[i].f;
        if f.file !in files {
          assert Views(seeds)[i] == View(seeds[i]);
          return false;
        }
        var index := IndexFromFile(files, digest, f.file);
        f.RegenerateIndex(index);
      }
    }
    return true;
  }

  /** Any index that agrees with the file; where the file is cut does not matter here. */
  method IndexFromFile(files: Files, digest: Digest, file: string) returns (index: seq<IndexChunk>)
    requires file in files
    ensures IsIndexOf(files, digest, file, index)
  {
    index := *;
    if !IsIndexOf(files, digest, file, index) {
      index := [];
    }
  }

  /** No bytes of another length have an ID of the index. */
  ghost predicate IdsFixSizes(digest: Digest, index: seq<IndexChunk>) {
    forall i, b :: 0 <= i < |index| && digest(b) == index[i].id ==> |b| == index[i].size
  }

  lemma RegeneratedFits(files: Files, digest: Digest, v: SeedView, v': SeedView, index: seq<IndexChunk>)
    requires Regenerated(files, digest, v, v') && Fits(v, index) && IdsFixSizes(digest, index)
    ensures Fits(v', index)
  {
    if v' != v {
      var data := files[v.file];
      forall i, j | 0 <= i < |v'.chunks| && 0 <= j < |index| && v'.chunks[i].id == index[j].id
        ensures v'.chunks[i].size == index[j].size
      {
        var c := v'.chunks[i];
        assert ChunkMatches(data, digest, c);
        assert digest(data[c.start..c.End()]) == index[j].id;
      }
    }
  }

  // ---------- progress ----------

  function Count(bs: seq<bool>): nat {
    if bs == [] then 0 else Count(bs[1..]) + if bs[0] then 1 else 0
  }

  lemma {:induction false} CountFalls(a: seq<bool>, b: seq<bool>)
    requires |a| == |b| && forall i :: 0 <= i < |a| && b[i] ==> a[i]
    ensures Count(b) <= Count(a)
    ensures (exists i :: 0 <= i < |a| && a[i] && !b[i]) ==> Count(b) < Count(a)
  {
    if a != [] {
      CountFalls(a[1..], b[1..]);
      if i :| 0 <= i < |a| && a[i] && !b[i] {
        if i > 0 { assert a[1..][i - 1] && !b[1..][i - 1]; }
      }
    }
  }

  function IsFile(vs: seq<SeedView>): (bs: seq<bool>) {
    seq(|vs|, i requires 0 <= i < |vs| => vs[i].FileView?)
  }

  /** The file seeds that planning still considers. */
  function Usable(vs: seq<SeedView>): (bs: seq<bool>) {
    seq(|vs|, i requires 0 <= i < |vs| => vs[i].FileView? && !vs[i].invalid)
  }

  /** The file seeds whose index does not agree with the file. */
  function Stale(vs: seq<SeedView>, files: Files, digest: Digest): (bs: seq<bool>) {
    seq(|vs|, i requires 0 <= i < |vs| => vs[i].FileView? && !Matches(files, digest, vs[i].file, vs[i].chunks))
  }

  lemma {:induction false} CountSnoc(bs: seq<bool>, b: bool)
    ensures Count(bs + [b]) == Count(bs) + if b then 1 else 0
    decreases |bs|
  {
    if bs == [] {
      assert [b][1..] == [];
    } else {
      assert (bs + [b])[1..] == bs[1..] + [b];
      CountSnoc(bs[1..], b);
    }
  }

  /** The bounds count file seeds, and those still usable, and nothing else. */
  lemma SeedsCounted(vs: seq<SeedView>, v: SeedView)
    ensures Count(IsFile([])) == 0 && Count(Usable([])) == 0
    ensures Count(IsFile(vs + [v])) == Count(IsFile(vs)) + if v.FileView? then 1 else 0
    ensures Count(Usable(vs + [v])) == Count(Usable(vs)) + if v.FileView? && !v.invalid then 1 else 0
  {
    CountSnoc(IsFile(vs), v.FileView?);
    CountSnoc(Usable(vs), v.FileView? && !v.invalid);
    assert IsFile(vs + [v]) == IsFile(vs) + [v.FileView?];
    assert Usable(vs + [v]) == Usable(vs) + [v.FileView? && !v.invalid];
  }

  lemma AtMostFiles(vs: seq<SeedView>, files: Files, digest: Digest)
    ensures Count(Usable(vs)) <= Count(IsFile(vs))
    ensures Count(Stale(vs, files, digest)) <= Count(IsFile(vs))
  {
    CountFalls(IsFile(vs), Usable(vs));
    CountFalls(IsFile(vs), Stale(vs, files, digest));
  }

  /** The view of a seed that is as before, or now marked invalid. */
  predicate MarkedAt(v: SeedView, v': SeedView) {
    v' == v || (v.FileView? && v' == FileView(v.file, v.chunks, v.canReflink, true))
  }

  predicate Marked(vs: seq<SeedView>, vs': seq<SeedView>) {
    |vs| == |vs'| && forall i :: 0 <= i < |vs| ==> MarkedAt(vs[i], vs'[i])
  }

  /** A segment at fault comes from a seed that was usable and whose index is stale. */
  lemma SeedAtFault(seeds: seq<Sequencer.Seed>, vs: seq<SeedView>, index: seq<IndexChunk>, c: Candidate) returns (i: nat)
    requires |vs| == |seeds| && Planned(seeds, vs, index, c) && c.IsFileSeed()
    ensures i < |seeds| && c.seed == Some(seeds[i]) && vs[i].FileView? && !vs[i].invalid
    ensures forall files, digest :: Fails(files, digest, c) ==> !Matches(files, digest, vs[i].file, vs[i].chunks)
  {
    hide Matches, Source.Size, Bytes, Holds, From, Provides;
    var want, n := index[c.segment.first..], c.segment.last - c.segment.first + 1;
    i :| 0 <= i < |vs| && seeds[i] == c.seed.value && From(vs[i], want, n, c.source.value);
    var p := RunOfSeed(vs[i], want, n, c.source.value);
    forall files, digest | Fails(files, digest, c)
      ensures !Matches(files, digest, vs[i].file, vs[i].chunks)
    {
      PartMatches(files, digest, vs[i].file, vs[i].chunks, p, p + n);
    }
  }

  lemma RunOfSeed(v: SeedView, want: seq<IndexChunk>, n: nat, source: Source) returns (p: nat)
    requires From(v, want, n, source) && source.FileName() != ""
    ensures v.FileView? && !v.invalid && p + n <= |v.chunks| && source == FileSegment(v.file, v.chunks[p..p + n], v.canReflink)
  {
    p :| HeldAt(v.chunks, want, p, n) && source == FileSegment(v.file, v.chunks[p..p + n], v.canReflink);
  }

  lemma PartMatches(files: Files, digest: Digest, file: string, chunks: seq<IndexChunk>, p: nat, q: nat)
    requires p <= q <= |chunks|
    ensures Matches(files, digest, file, chunks) ==> Matches(files, digest, file, chunks[p..q])
  {
  }

  lemma SkipProgress(vs: seq<SeedView>, vs': seq<SeedView>, i: nat)
    requires Marked(vs, vs') && i < |vs| && vs[i].FileView? && !vs[i].invalid && vs'[i].FileView? && vs'[i].invalid
    ensures Count(Usable(vs')) < Count(Usable(vs))
    ensures Count(IsFile(vs')) <= Count(IsFile(vs))
  {
    assert Usable(vs)[i] && !Usable(vs')[i];
    CountFalls(Usable(vs), Usable(vs'));
    CountFalls(IsFile(vs), IsFile(vs'));
  }

  lemma RegenerateProgress(files: Files, digest: Digest, vs: seq<SeedView>, vs': seq<SeedView>, vs'': seq<SeedView>, i: nat)
    requires Marked(vs, vs') && i < |vs| && vs[i].FileView? && vs'[i].FileView? && vs'[i].invalid
    requires !Matches(files, digest, vs[i].file, vs[i].chunks)
    requires |vs''| == |vs| && forall j :: 0 <= j < |vs| ==> Regenerated(files, digest, vs'[j], vs''[j])
    requires vs''[i].FileView? ==> !vs''[i].invalid
    ensures Count(Stale(vs'', files, digest)) < Count(Stale(vs, files, digest))
  {
    hide Matches;
    var a, b := Stale(vs, files, digest), Stale(vs'', files, digest);
    forall j | 0 <= j < |vs| && b[j]
      ensures a[j]
    {
      assert MarkedAt(vs[j], vs'[j]) && Regenerated(files, digest, vs'[j], vs''[j]);
    }
    assert Regenerated(files, digest, vs'[i], vs''[i]);
    assert a[i] && !b[i];
    CountFalls(a, b);
  }

  // ---------- the retry loop ----------

  /** What planning promises; for an empty index the plan is one segment of a chunk that does not exist. */
  ghost predicate IsPlan(seeds: seq<Sequencer.Seed>, vs: seq<SeedView>, index: seq<IndexChunk>, plan: seq<Candidate>)
    requires |vs| == |seeds|
  {
    if index == [] then plan == [Candidate(None, None, Segment(0, 0))] else GoodPlan(seeds, vs, index, plan)
  }

  lemma PlanUsesSeeds(seeds: seq<Sequencer.Seed>, index: seq<IndexChunk>, plan: seq<Candidate>)
    requires IsPlan(seeds, Views(seeds), index, plan)
    ensures forall c :: c in plan ==> FromFileSeed(c)
    ensures Used(plan) <= Objects(seeds)
  {
    hide Planned, Views;
    var vs := Views(seeds);
    forall c | c in plan
      ensures FromFileSeed(c) && (c.IsFileSeed() ==> c.seed.value in seeds)
    {
      if c.IsFileSeed() {
        assert Planned(seeds, vs, index, c);
        var i := SeedAtFault(seeds, vs, index, c);
        assert vs[i] == View(seeds[i]);
      }
    }
  }

  /** Seeds that are only ever marked. */
  twostate lemma ValidationMarks(seeds: seq<Sequencer.Seed>)
    requires forall f :: f in Objects(seeds) ==> f.chunks == old(f.chunks)
    requires forall f :: f in Objects(seeds) && f.isInvalid != old(f.isInvalid) ==> f.isInvalid
    ensures Marked(old(Views(seeds)), Views(seeds))
  {
    var vs, vs' := old(Views(seeds)), Views(seeds);
    forall i | 0 <= i < |seeds|
      ensures MarkedAt(vs[i], vs'[i])
    {
      if seeds[i].File? { assert seeds[i].f in Objects(seeds); }
    }
  }

  lemma MarkedFits(vs: seq<SeedView>, vs': seq<SeedView>, index: seq<IndexChunk>)
    requires Marked(vs, vs') && AllFit(vs, index)
    ensures AllFit(vs', index)
  {
    hide Consecutive, SizesAgree;
    forall i | 0 <= i < |vs|
      ensures Fits(vs'[i], index)
    {
      assert MarkedAt(vs[i], vs'[i]) && Fits(vs[i], index);
    }
  }

  datatype Verdict = Good | Again | GiveUp

  /** Validate the plan and, unless it is good, keep all seeds valid and drop a usable one or refresh a stale one. */
  method Check(sq: SeedSequencer, plan: seq<Candidate>, action: Action, files: Files, digest: Digest) returns (verdict: Verdict)
    requires sq.Valid() && IdsFixSizes(digest, sq.index) && IsPlan(sq.seeds, Views(sq.seeds), sq.index, plan)
    modifies Objects(sq.seeds)
    ensures sq.Valid()
    ensures verdict == Good ==> Views(sq.seeds) == old(Views(sq.seeds)) && forall c :: c in plan ==> !Fails(files, digest, c)
    ensures verdict == GiveUp ==> action != Skip && exists c :: c in plan && Fails(files, digest, c)
    ensures verdict == GiveUp && action == Regenerate ==> Unreadable(Views(sq.seeds), files)
    ensures verdict == Again ==> action != BailOut
    ensures verdict == Again ==> Left(Views(sq.seeds), action, files, digest) < Left(old(Views(sq.seeds)), action, files, digest)
  {
    hide SeedSequencer.Valid, IsPlan, Matches, Marked, Regenerated, IdsFixSizes, Count, Stale, Usable, Fails, Unreadable;
    ghost var vs := Views(sq.seeds);
    var ok, i := Judge(sq, plan, files, digest);
    ghost var vs' := Views(sq.seeds);
    if ok {
      return Good;
    }
    if action == BailOut {
      return GiveUp;
    }
    if action == Skip {
      SkipProgress(vs, vs', i);
      return Again;
    }
    var done := Refresh(sq, files, digest);
    if !done {
      return GiveUp;
    }
    RegenerateProgress(files, digest, vs, vs', Views(sq.seeds), i);
    return Again;
  }

  /** Validation of a plan: if it fails, a seed that was usable and is stale has been marked. */
  method Judge(sq: SeedSequencer, plan: seq<Candidate>, files: Files, digest: Digest) returns (ok: bool, ghost i: nat)
    requires sq.Valid() && IsPlan(sq.seeds, Views(sq.seeds), sq.index, plan)
    modifies Objects(sq.seeds)
    ensures sq.Valid() && Marked(old(Views(sq.seeds)), Views(sq.seeds))
    ensures ok <==> forall c :: c in plan ==> !Fails(files, digest, c)
    ensures ok ==> Views(sq.seeds) == old(Views(sq.seeds))
    ensures !ok ==> i < |sq.seeds| && Views(sq.seeds)[i].FileView? && Views(sq.seeds)[i].invalid
    ensures !ok ==> var v := old(Views(sq.seeds))[i]; v.FileView? && !v.invalid && !Matches(files, digest, v.file, v.chunks)
  {
    hide IsPlan, Matches, Consecutive, Positive, Fits, Record;
    ghost var vs := Views(sq.seeds);
    PlanUsesSeeds(sq.seeds, sq.index, plan);
    label before:
    var good, bad := Validate(plan, files, digest);
    ok, i := good, 0;
    ghost var vs' := Views(sq.seeds);
    ValidationMarks@before(sq.seeds);
    MarkedFits(vs, vs', sq.index);
    if ok {
      assert forall j :: 0 <= j < |vs| ==> vs'[j] == vs[j];
    } else {
      i := AtFault(sq.seeds, vs, sq.index, plan, bad, files, digest);
    }
  }

  method Refresh(sq: SeedSequencer, files: Files, digest: Digest) returns (ok: bool)
    requires sq.Valid() && IdsFixSizes(digest, sq.index)
    modifies Objects(sq.seeds)
    ensures sq.Valid()
    ensures forall j :: 0 <= j < |sq.seeds| ==> Regenerated(files, digest, old(Views(sq.seeds)[j]), Views(sq.seeds)[j])
    ensures ok ==> forall j :: 0 <= j < |sq.seeds| && Views(sq.seeds)[j].FileView? ==> !Views(sq.seeds)[j].invalid
    ensures !ok ==> Unreadable(Views(sq.seeds), files)
  {
    hide Consecutive, Positive, Fits, Record, IdsFixSizes, Regenerated;
    ghost var vs := Views(sq.seeds);
    ok := RegenerateInvalidSeeds(sq.seeds, files, digest);
    ghost var vs' := Views(sq.seeds);
    forall j | 0 <= j < |vs|
      ensures Regenerated(files, digest, vs[j], vs'[j]) && Fits(vs'[j], sq.index)
    {
      assert Fits(vs[j], sq.index) && sq.seeds[j] in sq.seeds;
      RegeneratedFits(files, digest, vs[j], vs'[j], sq.index);
    }
  }

  lemma AtFault(seeds: seq<Sequencer.Seed>, vs: seq<SeedView>, index: seq<IndexChunk>, plan: seq<Candidate>, bad: nat, files: Files, digest: Digest)
    returns (i: nat)
    requires |vs| == |seeds| && IsPlan(seeds, vs, index, plan) && bad < |plan| && Fails(files, digest, plan[bad])
    ensures i < |seeds| && plan[bad].seed == Some(seeds[i]) && vs[i].FileView? && !vs[i].invalid
    ensures !Matches(files, digest, vs[i].file, vs[i].chunks)
  {
    hide Planned, Matches;
    assert Planned(seeds, vs, index, plan[bad]);
    i := SeedAtFault(seeds, vs, index, plan[bad]);
  }

  /** The files do not change from one validation to the next. */
  predicate Stable(files: seq<Files>) {
    forall k :: 0 <= k < |files| ==> files[k] == files[0]
  }

  /**
   The plan and validate loop of AssembleFile over any number of validations; files[k] is what the
   k-th of them sees. Skipping a seed per failed attempt needs at most one attempt more than there are
   usable file seeds, whatever happens to the files; regenerating at most one more than there are file
   seeds if the files stay as they are. The verdict is Again if it would go on after the last of `files`.
   */
  method FindPlan(sq: SeedSequencer, action: Action, files: seq<Files>, digest: Digest)
    returns (plan: seq<Candidate>, attempt: nat, verdict: Verdict)
    requires sq.Valid() && IdsFixSizes(digest, sq.index)
    modifies sq, Objects(sq.seeds)
    ensures sq.Valid() && attempt >= 1
    ensures verdict == Good ==> IsPlan(sq.seeds, Views(sq.seeds), sq.index, plan)
    ensures verdict == Good ==> attempt <= |files| && forall c :: c in plan ==> Trusted(files[attempt - 1], digest, c)
    ensures verdict == Again ==> attempt == |files| + 1 && (action == BailOut ==> files == [])
    ensures verdict == GiveUp ==> attempt <= |files| && action != Skip && exists c :: c in plan && Fails(files[attempt - 1], digest, c)
    ensures verdict == GiveUp && action == Regenerate ==> Unreadable(Views(sq.seeds), files[attempt - 1])
    ensures action == BailOut ==> attempt == 1
    ensures action == Skip ==> attempt + Count(Usable(Views(sq.seeds))) <= 1 + Count(Usable(old(Views(sq.seeds))))
    ensures action != Regenerate || Stable(files) ==> attempt <= 1 + Count(IsFile(old(Views(sq.seeds))))
  {
    hide SeedSequencer.Valid, IsPlan, Fails, Trusted, Unreadable, Left, IdsFixSizes, Stable, InBudget, Count, Usable, IsFile, Views, View, Objects;
    ghost var vs0 := Views(sq.seeds);
    attempt := 1;
    plan := MakePlan(sq);
    ghost var vs := vs0;
    BudgetStarts(vs0, action, files, digest);
    while attempt <= |files|
      invariant sq.Valid() && vs == Views(sq.seeds) && IsPlan(sq.seeds, vs, sq.index, plan)
      invariant 1 <= attempt <= |files| + 1 && InBudget(vs0, vs, attempt, action, files, digest)
      invariant action == BailOut ==> attempt == 1
    {
      BudgetMeans(vs0, vs, attempt, action, files, digest);
      var v := Check(sq, plan, action, files[attempt - 1], digest);
      if v != Again {
        if v == Good { AllTrusted(plan, files[attempt - 1], digest); }
        return plan, attempt, v;
      }
      BudgetStep(vs0, vs, Views(sq.seeds), attempt, action, files, digest);
      vs := Views(sq.seeds);
      attempt := attempt + 1;
      plan := MakePlan(sq);
    }
    BudgetMeans(vs0, vs, attempt, action, files, digest);
    verdict := Again;
  }

  /** A segment from a named file: the file can be read, and each of its chunks is there with its ID. */
  predicate Trusted(files: Files, digest: Digest, c: Candidate) {
    c.source.Some? && c.source.value.FileSegment? && c.source.value.file != "" ==>
      var file, chunks := c.source.value.file, c.source.value.chunks;
      && file in files
      && forall i :: 0 <= i < |chunks| ==>
           chunks[i].start + chunks[i].size <= |files[file]|
           && digest(files[file][chunks[i].start..chunks[i].start + chunks[i].size]) == chunks[i].id
  }

  lemma AllTrusted(plan: seq<Candidate>, files: Files, digest: Digest)
    requires forall c :: c in plan ==> !Fails(files, digest, c)
    ensures forall c :: c in plan ==> Trusted(files, digest, c)
  {
    forall c | c in plan
      ensures Trusted(files, digest, c)
    {
      if c.source.Some? && c.source.value.FileSegment? && c.source.value.file != "" {
        var file, chunks := c.source.value.file, c.source.value.chunks;
        assert Matches(files, digest, file, chunks);
        forall i | 0 <= i < |chunks|
          ensures chunks[i].End() <= |files[file]| && digest(files[file][chunks[i].start..chunks[i].End()]) == chunks[i].id
        {
          assert ChunkMatches(files[file], digest, chunks[i]);
        }
      }
    }
  }

  /** Attempts made and attempts that can still fail are together no more than could fail at the start, and one. */
  ghost predicate InBudget(vs0: seq<SeedView>, vs: seq<SeedView>, attempt: nat, action: Action, files: seq<Files>, digest: Digest) {
    action != Regenerate || Stable(files) ==>
      var first := if files == [] then map[] else files[0];
      attempt + Left(vs, action, first, digest) <= 1 + Left(vs0, action, first, digest)
  }

  lemma BudgetStarts(vs: seq<SeedView>, action: Action, files: seq<Files>, digest: Digest)
    ensures InBudget(vs, vs, 1, action, files, digest)
  {
  }

  lemma BudgetStep(vs0: seq<SeedView>, vs: seq<SeedView>, vs': seq<SeedView>, attempt: nat, action: Action, files: seq<Files>, digest: Digest)
    requires InBudget(vs0, vs, attempt, action, files, digest) && 1 <= attempt <= |files|
    requires Left(vs', action, files[attempt - 1], digest) < Left(vs, action, files[attempt - 1], digest)
    ensures InBudget(vs0, vs', attempt + 1, action, files, digest)
  {
    hide Left;
    if action != Regenerate || Stable(files) {
      LeftSame(vs, action, files[0], files[attempt - 1], digest);
      LeftSame(vs', action, files[0], files[attempt - 1], digest);
    }
  }

  lemma BudgetMeans(vs0: seq<SeedView>, vs: seq<SeedView>, attempt: nat, action: Action, files: seq<Files>, digest: Digest)
    requires InBudget(vs0, vs, attempt, action, files, digest)
    ensures action != Regenerate || Stable(files) ==> attempt <= 1 + Count(IsFile(vs0))
    ensures action == Skip ==> attempt + Count(Usable(vs)) <= 1 + Count(Usable(vs0))
  {
    hide Stable;
    LeftAtMostFiles(vs0, action, if files == [] then map[] else files[0], digest);
  }

  /** Plan anew from the start of the index. */
  method MakePlan(sq: SeedSequencer) returns (plan: seq<Candidate>)
    requires sq.Valid()
    modifies sq
    ensures sq.Valid() && Views(sq.seeds) == old(Views(sq.seeds)) && IsPlan(sq.seeds, Views(sq.seeds), sq.index, plan)
  {
    hide GoodPlan, Consecutive, Positive, AllFit, FileSeed.Valid;
    sq.Rewind();
    assert Views(sq.seeds) == old(Views(sq.seeds));
    plan := sq.Plan();
  }

  /** How many more attempts can fail. */
  ghost function Left(vs: seq<SeedView>, action: Action, files: Files, digest: Digest): nat {
    match action
    case BailOut => 0
    case Skip => Count(Usable(vs))
    case Regenerate => Count(Stale(vs, files, digest))
  }

  lemma LeftAtMostFiles(vs: seq<SeedView>, action: Action, files: Files, digest: Digest)
    ensures Left(vs, action, files, digest) <= Count(IsFile(vs))
  {
    AtMostFiles(vs, files, digest);
  }

  lemma LeftSame(vs: seq<SeedView>, action: Action, files: Files, files': Files, digest: Digest)
    requires action == Regenerate ==> files == files'
    ensures Left(vs, action, files, digest) == Left(vs, action, files', digest)
  {
  }
}
