/**
 The seed sequencer: it walks the target index once and picks the largest offer among the
 seeds at each step, giving a plan that covers every chunk exactly once.
 */
module Sequencer {
  import opened Chunking
  import opened SelfSeed
  import opened Prelude
  import opened Planning

  datatype Seed = Null(id: ChunkID, canReflink: bool) | File(f: FileSeed)

  /** A segment of the plan and where to take it from. */
  datatype Candidate = Candidate(seed: Option<Seed>, source: Option<Source>, segment: Segment) {
    predicate IsFileSeed() {
      source.Some? && source.value.FileName() != ""
    }
  }

  function View(s: Seed): SeedView
    reads if s.File? then {s.f} else {}
  {
    match s
    case Null(id, canReflink) => NullView(id, canReflink)
    case File(f) => f.View()
  }

  function Objects(seeds: seq<Seed>): set<FileSeed> {
    set s | s in seeds && s.File? :: s.f
  }

  ghost function Views(seeds: seq<Seed>): (vs: seq<SeedView>)
    reads Objects(seeds)
    ensures |vs| == |seeds| && forall i :: 0 <= i < |seeds| ==> vs[i] == View(seeds[i])
  {
    if seeds == [] then [] else
      var n := |seeds| - 1;
      Views(seeds[..n]) + [View(seeds[n])]
  }

  /** A usable seed that has the chunk. */
  ghost predicate Holds(v: SeedView, id: ChunkID) {
    match v
    case NullView(nid, _) => nid == id
    case FileView(_, chunks, _, invalid) => !invalid && exists i :: 0 <= i < |chunks| && chunks[i].id == id
  }

  /** Seed index and target index are made of the same kind of chunks. */
  predicate Fits(v: SeedView, index: seq<IndexChunk>) {
    v.FileView? ==> Consecutive(v.chunks) && SizesAgree(v.chunks, index)
  }

  ghost predicate AllFit(vs: seq<SeedView>, index: seq<IndexChunk>) {
    forall i :: 0 <= i < |vs| ==> Fits(vs[i], index)
  }

  lemma ProvidesOne(v: SeedView, want: seq<IndexChunk>)
    requires |want| > 0
    ensures Provides(v, want, 1) <==> Holds(v, want[0].id)
    ensures forall k: nat :: Provides(v, want, k) ==> Holds(v, want[0].id)
  {
    if v.FileView? {
      forall i | 0 <= i < |v.chunks| && v.chunks[i].id == want[0].id
        ensures HeldAt(v.chunks, want, i, 1)
      {
      }
      forall p: nat, k: nat | HeldAt(v.chunks, want, p, k) && k > 0
        ensures p < |v.chunks| && v.chunks[p].id == want[0].id
      {
        assert v.chunks[p + 0].id == want[0].id;
      }
    }
  }

  // ---------- the choice at one position ----------

  /** At `want`, the pick is the largest offer any seed can make, or no seed has the first chunk. */
  ghost predicate Choice(vs: seq<SeedView>, want: seq<IndexChunk>, pick: Option<nat>, n: nat, source: Option<Source>) {
    match pick
    case None => source == None && n == 1 && forall j, k: nat :: 0 <= j < |vs| ==> !Provides(vs[j], want, k)
    case Some(i) =>
      && i < |vs| && source.Some? && From(vs[i], want, n, source.value)
      && source.value.Size() == Bytes(want[..n]) > 0
      && forall j, k: nat :: 0 <= j < |vs| && Provides(vs[j], want, k) ==> Bytes(want[..k]) <= source.value.Size()
  }

  /** A source is as large as what it is to be copied to. */
  lemma SizeOfSource(v: SeedView, want: seq<IndexChunk>, n: nat, source: Source)
    requires From(v, want, n, source) && Fits(v, want) && Consecutive(want) && Positive(want)
    ensures source.Size() == Bytes(want[..n]) > 0
    ensures source.FileSegment? ==> SameIds(source.chunks, want[..n])
  {
    hide Consecutive, Positive, SizesAgree, SameIds;
    BytesGrow(want, 0, 0, n);
    assert want[0..n] == want[..n] && want[0..0] == [];
    if v.FileView? {
      var p: nat :| HeldAt(v.chunks, want, p, n) && source == FileSegment(v.file, v.chunks[p..p + n], v.canReflink);
      RunBytes(v.chunks, want, p, n);
    }
  }

  lemma RunBytes(chunks: seq<IndexChunk>, want: seq<IndexChunk>, p: nat, n: nat)
    requires HeldAt(chunks, want, p, n) && Consecutive(chunks) && Consecutive(want) && SizesAgree(chunks, want)
    ensures SameIds(chunks[p..p + n], want[..n]) && Bytes(chunks[p..p + n]) == Bytes(want[..n])
  {
    hide Bytes, FollowsAt;
    var run := chunks[p..p + n];
    assert SameIds(run, want[..n]);
    Part(chunks, p, p + n);
    Part(want, 0, n);
    assert SizesAgree(run, want[..n]);
    SameIdsSameBytes(run, want[..n]);
  }

  lemma LargerOffer(v: SeedView, want: seq<IndexChunk>, n: nat, source: Option<Source>, k: nat)
    requires Longest(v, want, n, source) && Provides(v, want, k) && Consecutive(want) && Positive(want)
    ensures n > 0 && k <= n <= |want| && Bytes(want[..k]) <= Bytes(want[..n])
  {
    BytesGrow(want, 0, k, n);
    assert want[0..n] == want[..n] && want[0..k] == want[..k];
  }

  /** One round of the loop over the seeds. */
  lemma ChoiceStep(vs: seq<SeedView>, v: SeedView, want: seq<IndexChunk>, pick: Option<nat>, n: nat, source: Option<Source>,
                   n': nat, source': Option<Source>)
    requires Choice(vs, want, pick, n, source) && Longest(v, want, n', source')
    requires Fits(v, want) && Consecutive(want) && Positive(want)
    ensures var max := if source.Some? then source.value.Size() else 0;
            if n' > 0 && source'.value.Size() > max
            then Choice(vs + [v], want, Some(|vs|), n', source')
            else Choice(vs + [v], want, pick, n, source)
  {
    hide Provides, From, Bytes, Positive, Consecutive, Fits;
    var all := vs + [v];
    var max := if source.Some? then source.value.Size() else 0;
    if n' > 0 {
      SizeOfSource(v, want, n', source'.value);
    }
    forall k: nat | Provides(v, want, k)
      ensures n' > 0 && k <= n' <= |want| && Bytes(want[..k]) <= Bytes(want[..n'])
    {
      LargerOffer(v, want, n', source', k);
    }
  }

  /** Fits and the rest hold for what is left of the index. */
  lemma Rest(v: SeedView, index: seq<IndexChunk>, at: nat)
    requires at <= |index|
    ensures Fits(v, index) ==> Fits(v, index[at..])
    ensures Consecutive(index) ==> Consecutive(index[at..])
    ensures Positive(index) ==> Positive(index[at..])
  {
    if Consecutive(index) {
      Part(index, at, |index|);
      assert index[at..|index|] == index[at..];
    }
  }

  method LongestMatch(s: Seed, want: seq<IndexChunk>) returns (n: nat, source: Option<Source>)
    requires s.File? ==> s.f.Valid()
    ensures Longest(View(s), want, n, source)
  {
    match s {
      case Null(id, canReflink) => n, source := LongestNullMatch(id, canReflink, want);
      case File(f) => n, source := f.LongestMatchWith(want);
    }
  }

  // ---------- plans ----------

  /** What the plan promises about one segment, given what the seeds offered. */
  ghost predicate Planned(seeds: seq<Seed>, vs: seq<SeedView>, index: seq<IndexChunk>, c: Candidate)
    requires |vs| == |seeds|
  {
    && c.segment.first <= c.segment.last < |index|
    && var want, n := index[c.segment.first..], c.segment.last - c.segment.first + 1;
       match c.source
       case None => c.seed == None && n == 1 && forall j :: 0 <= j < |vs| ==> !Holds(vs[j], want[0].id)
       case Some(source) =>
         && c.seed.Some?
         && (exists i :: 0 <= i < |vs| && seeds[i] == c.seed.value && From(vs[i], want, n, source))
         && source.Size() == Bytes(want[..n]) > 0
         && forall j, k: nat :: 0 <= j < |vs| && Provides(vs[j], want, k) ==> Bytes(want[..k]) <= source.Size()
  }

  function Segments(plan: seq<Candidate>): (s: seq<Segment>)
    ensures |s| == |plan| && forall i :: 0 <= i < |plan| ==> s[i] == plan[i].segment
  {
    seq(|plan|, i requires 0 <= i < |plan| => plan[i].segment)
  }

  /** The segments cover the index exactly once, each planned against the same offers. */
  ghost predicate GoodPlan(seeds: seq<Seed>, vs: seq<SeedView>, index: seq<IndexChunk>, plan: seq<Candidate>)
    requires |vs| == |seeds|
  {
    && Tiles(Segments(plan), |index|) && StartOf(Segments(plan), |plan|) == |index|
    && forall i :: 0 <= i < |plan| ==> Planned(seeds, vs, index, plan[i])
  }

  lemma ChoiceIsPlanned(seeds: seq<Seed>, vs: seq<SeedView>, index: seq<IndexChunk>, at: nat, pick: Option<nat>, n: nat, source: Option<Source>)
    requires |vs| == |seeds| && at < |index| && Choice(vs, index[at..], pick, n, source)
    ensures n > 0 && at + n <= |index|
    ensures pick.Some? ==> pick.value < |seeds|
    ensures Planned(seeds, vs, index, Candidate(if pick.Some? then Some(seeds[pick.value]) else None, source, Segment(at, at + n - 1)))
  {
    var want := index[at..];
    if pick == None {
      forall j | 0 <= j < |vs|
        ensures !Holds(vs[j], want[0].id)
      {
        ProvidesOne(vs[j], want);
        assert !Provides(vs[j], want, 1);
      }
    }
  }

  /** A sourced segment matches its source ID for ID and byte for byte in length; a null section covers null chunks only. */
  lemma {:induction false} SegmentMatches(seeds: seq<Seed>, vs: seq<SeedView>, index: seq<IndexChunk>, c: Candidate)
    requires |vs| == |seeds| && AllFit(vs, index) && Consecutive(index) && Positive(index)
    requires Planned(seeds, vs, index, c) && c.source.Some?
    ensures var part := index[c.segment.first..c.segment.last + 1];
            && c.source.value.Size() == Bytes(part)
            && (c.source.value.FileSegment? ==> SameIds(c.source.value.chunks, part))
            && (c.source.value.NullSection? ==> c.source.value == NullSection(part[0].start, part[|part| - 1].End()))
            && exists i :: 0 <= i < |seeds| && seeds[i] == c.seed.value && (vs[i].FileView? ==> !vs[i].invalid)
                           && (vs[i].NullView? ==> forall j :: 0 <= j < |part| ==> part[j].id == vs[i].id)
  {
    hide Consecutive, Positive, Fits, Bytes, SameIds, HeldAt;
    var want, n := index[c.segment.first..], c.segment.last - c.segment.first + 1;
    var i :| 0 <= i < |vs| && seeds[i] == c.seed.value && From(vs[i], want, n, c.source.value);
    assert Fits(vs[i], index);
    Rest(vs[i], index, c.segment.first);
    SizeOfSource(vs[i], want, n, c.source.value);
    assert want[..n] == index[c.segment.first..c.segment.last + 1];
  }

  class SeedSequencer {
    const seeds: seq<Seed>
    const index: seq<IndexChunk>
    var current: nat

    constructor (seeds: seq<Seed>, index: seq<IndexChunk>)
      ensures this.seeds == seeds && this.index == index && current == 0
    {
      this.seeds, this.index, current := seeds, index, 0;
    }

    /** Seeds with their positions in order, and indexes made of the same kind of chunks. */
    ghost predicate Valid()
      reads Objects(seeds)
    {
      && Consecutive(index) && Positive(index) && AllFit(Views(seeds), index)
      && forall s :: s in seeds && s.File? ==> s.f.Valid()
    }

    /** The largest offer for what is left of the index. */
    method Pick() returns (pick: Option<nat>, n: nat, source: Option<Source>)
      requires Valid() && current <= |index|
      ensures Choice(Views(seeds), index[current..], pick, n, source)
    {
      hide Choice, Consecutive, Positive, Fits, Longest, Source.Size;
      var want := index[current..];
      var max: int := 0;
      pick, n, source := None, 1, None;
      ghost var vs := Views(seeds);
      NoSeeds(want);
      for j := 0 to |seeds|
        invariant Choice(vs[..j], want, pick, n, source)
        invariant max == if source.Some? then source.value.Size() else 0
        invariant vs == Views(seeds) && Valid()
      {
        var n', m := LongestMatch(seeds[j], want);
        Rest(vs[j], index, current);
        ChoiceStep(vs[..j], vs[j], want, pick, n, source, n', m);
        SomeSource(vs[j], want, n', m);
        assert vs[..j + 1] == vs[..j] + [vs[j]];
        if n' > 0 && m.value.Size() > max {
          pick, n, source := Some(j), n', m;
          max := m.value.Size();
        }
      }
      assert vs[..|seeds|] == vs;
    }

    /** The next segment; past the end of an empty index it is a segment of one chunk that does not exist. */
    method Next() returns (c: Candidate, done: bool)
      requires Valid() && current <= |index|
      modifies this
      ensures Valid() && Views(seeds) == old(Views(seeds))
      ensures c.segment.first == old(current) && current == c.segment.last + 1
      ensures old(current) < |index| ==> Planned(seeds, Views(seeds), index, c) && current <= |index|
      ensures old(current) == |index| ==> c == Candidate(None, None, Segment(|index|, |index|))
      ensures done <==> current >= |index|
    {
      hide Choice, Planned, Consecutive, Positive, AllFit, FileSeed.Valid;
      ghost var vs := Views(seeds);
      var pick, n, source := Pick();
      assert Views(seeds) == vs;
      if current < |index| {
        ChoiceIsPlanned(seeds, vs, index, current, pick, n, source);
      } else {
        NothingWanted(vs, index[current..], pick, n, source);
      }
      c := Candidate(if pick.Some? then Some(seeds[pick.value]) else None, source, Segment(current, current + n - 1));
      current := current + n;
      done := current >= |index|;
      assert Views(seeds) == vs;
    }

    method Plan() returns (plan: seq<Candidate>)
      requires Valid() && current == 0
      modifies this
      ensures Valid() && Views(seeds) == old(Views(seeds))
      ensures index != [] ==> GoodPlan(seeds, Views(seeds), index, plan)
      ensures index == [] ==> plan == [Candidate(None, None, Segment(0, 0))]
    {
      hide Planned, Valid, TileAt;
      plan := [];
      ghost var vs := Views(seeds);
      var done := false;
      while !done
        invariant done <==> current >= |index| && plan != []
        invariant index == [] ==> if done then plan == [Candidate(None, None, Segment(0, 0))] else plan == [] && current == 0
        invariant index != [] ==> Tiles(Segments(plan), |index|) && StartOf(Segments(plan), |plan|) == current <= |index|
        invariant index != [] ==> forall i :: 0 <= i < |plan| ==> Planned(seeds, vs, index, plan[i])
        invariant Valid() && vs == Views(seeds)
        decreases !done, |index| - current
      {
        var c, d := Next();
        if index != [] {
          TilesSnoc(plan, c, |index|);
          PlannedInside(seeds, vs, index, c);
        }
        plan := plan + [c];
        done := d;
      }
    }

    method Rewind()
      modifies this
      ensures current == 0
    {
      current := 0;
    }
  }

  lemma NoSeeds(want: seq<IndexChunk>)
    ensures Choice([], want, None, 1, None)
  {
  }

  lemma SomeSource(v: SeedView, want: seq<IndexChunk>, n: nat, source: Option<Source>)
    requires Longest(v, want, n, source)
    ensures n > 0 ==> source.Some?
  {
  }

  lemma NothingWanted(vs: seq<SeedView>, want: seq<IndexChunk>, pick: Option<nat>, n: nat, source: Option<Source>)
    requires Choice(vs, want, pick, n, source) && want == []
    ensures pick == None && n == 1 && source == None
  {
  }

  lemma PlannedInside(seeds: seq<Seed>, vs: seq<SeedView>, index: seq<IndexChunk>, c: Candidate)
    requires |vs| == |seeds| && Planned(seeds, vs, index, c)
    ensures c.segment.first <= c.segment.last < |index|
  {
  }

  lemma TilesSnoc(plan: seq<Candidate>, c: Candidate, n: nat)
    requires Tiles(Segments(plan), n) && c.segment.first == StartOf(Segments(plan), |plan|)
    ensures c.segment.first <= c.segment.last < n ==> Tiles(Segments(plan + [c]), n)
    ensures StartOf(Segments(plan + [c]), |plan| + 1) == c.segment.last + 1
  {
    var s, s' := Segments(plan), Segments(plan + [c]);
    if c.segment.first <= c.segment.last < n {
      forall i | 0 <= i < |s'|
        ensures TileAt(s', n, i)
      {
        if i < |plan| { assert TileAt(s, n, i); }
      }
    }
  }
}
