/** What the copy-on-read file keeps in every interleaving, and what its reads return. */
module SparseProof {
  import opened Chunking
  import opened Planning
  import opened IndexedBlob
  import opened SparseFile

  /** No later step can change what a read of chunk i sees. */
  predicate Settled(P: Cache, s: State, i: nat)
    requires i < |P.chunks| && |s.once| == |P.chunks|
  {
    i in s.done || P.chunks[i].id == P.nullID || s.once[i] == Spent
  }

  /** The byte a read of settled offset b delivers. */
  function Expect(P: Cache, s: State, b: nat): Byte
    requires b < |P.blob| == |P.file0|
  {
    if b in s.lost then P.file0[b] else P.blob[b]
  }

  predicate InChunk(P: Cache, i: nat, b: nat)
    requires i < |P.chunks|
  {
    P.chunks[i].start <= b < P.chunks[i].End()
  }

  /** Shapes that never change. */
  predicate Sized(P: Cache, s: State) {
    |s.once| == |P.chunks| && |s.file| == |P.blob|
  }

  /** What the file holds at offset b of chunk i. */
  ghost predicate ByteOk(P: Cache, s: State, i: nat, b: nat)
    requires P.Valid() && Sized(P, s) && i < |P.chunks| && InChunk(P, i, b)
  {
    Inside(P.chunks, P.blob, i);
    match s.once[i]
    case Fresh => s.file[b] == P.file0[b] && b !in s.lost
    case Running(w) => b !in s.lost && w < |s.ws| && s.file[b] == if s.ws[w].Writing? && b in s.ws[w].left then P.file0[b] else P.blob[b]
    case Spent => s.file[b] == Expect(P, s, b)
  }

  /** A chunk marked as done was there at the start, or was written without failure. */
  ghost predicate DoneOk(P: Cache, s: State, i: nat)
    requires P.Valid() && Sized(P, s) && i < |P.chunks|
  {
    i in s.done ==>
      || i in P.done0
      || (s.once[i].Running? && s.once[i].w < |s.ws| && s.ws[s.once[i].w].Leaving?)
      || (s.once[i] == Spent && forall b: nat :: InChunk(P, i, b) ==> b !in s.lost)
  }

  /** The call inside `once` of chunk i. */
  ghost predicate OwnerOk(P: Cache, s: State, i: nat)
    requires Sized(P, s) && i < |P.chunks|
  {
    s.once[i].Running? ==> s.once[i].w < |s.ws| && var pc := s.ws[s.once[i].w];
      (pc.Writing? || pc.Leaving?) && pc.needed != [] && pc.needed[0] == i
  }

  ghost predicate ChunkOk(P: Cache, s: State, i: nat)
    requires P.Valid() && Sized(P, s) && i < |P.chunks|
  {
    OwnerOk(P, s, i) && DoneOk(P, s, i) && forall b: nat :: InChunk(P, i, b) ==> ByteOk(P, s, i, b)
  }

  /** Every chunk a read still relies on is settled or on its list. */
  ghost predicate ListOk(P: Cache, s: State, job: Job, needed: seq<nat>)
    requires Sized(P, s)
  {
    && (forall x :: x in needed ==> x < |P.chunks|)
    && (job.Read? ==> forall i :: 0 <= i < |P.chunks| && Overlaps(P.chunks[i], job.off, job.len) ==> i in needed || Settled(P, s, i))
  }

  ghost predicate GotOk(P: Cache, s: State, job: Job, got: seq<Byte>)
    requires P.Valid()
  {
    && job.Read? && |got| <= P.Want(job.off, job.len)
    && forall k :: 0 <= k < |got| ==> got[k] == Expect(P, s, job.off + k)
  }

  ghost predicate PcOk(P: Cache, s: State, w: nat)
    requires P.Valid() && Sized(P, s) && w < |s.ws|
  {
    match s.ws[w]
    case Idle => true
    case Loading(job, needed) => ListOk(P, s, job, needed)
    case Writing(job, needed, left) =>
      ListOk(P, s, job, needed) && needed != [] && needed[0] < |P.chunks| && s.once[needed[0]] == Running(w) && forall b :: b in left ==> InChunk(P, needed[0], b)
    case Leaving(job, needed) => ListOk(P, s, job, needed) && needed != [] && needed[0] < |P.chunks| && s.once[needed[0]] == Running(w) && needed[0] in s.done
    case Reading(job, got) => ListOk(P, s, job, []) && GotOk(P, s, job, got)
    case Finished(job, got) => ListOk(P, s, job, []) && GotOk(P, s, job, got) && |got| == P.Want(job.off, job.len)
    case Errored(job) => true
  }

  ghost predicate Inv(P: Cache, s: State)
    requires P.Valid()
  {
    && Sized(P, s)
    && (forall i :: 0 <= i < |P.chunks| ==> ChunkOk(P, s, i))
    && forall w :: 0 <= w < |s.ws| ==> PcOk(P, s, w)
  }

  lemma InitialInv(P: Cache, s: State)
    requires P.Valid() && P.Initial(s)
    ensures Inv(P, s)
  {
    hide Consecutive, Positive;
  }

  // ---------- facts that hold by the invariant ----------

  /** A settled chunk reads as expected, and unless it is spent, that is the blob. */
  lemma SettledReads(P: Cache, s: State, i: nat, b: nat)
    requires P.Valid() && Sized(P, s) && i < |P.chunks| && ChunkOk(P, s, i) && InChunk(P, i, b) && Settled(P, s, i)
    ensures b < |P.blob| && s.file[b] == Expect(P, s, b)
    ensures i in s.done || P.chunks[i].id == P.nullID ==> s.file[b] == P.blob[b]
  {
    hide Consecutive, Positive;
    Inside(P.chunks, P.blob, i);
    assert ByteOk(P, s, i, b) && P.GoodAt(i);
    if P.Skippable(i) { assert P.Same(i, b); }
  }

  lemma ChunkOf(chunks: seq<IndexChunk>, blob: seq<Byte>, b: nat, n: nat) returns (i: nat)
    requires Covers(chunks, blob) && n <= |chunks| && b < (if n == 0 then 0 else chunks[n - 1].End())
    ensures i < n && chunks[i].start <= b < chunks[i].End()
  {
    i := n - 1;
    assert FollowsAt(chunks, n - 1);
    if b < chunks[n - 1].start {
      i := ChunkOf(chunks, blob, b, n - 1);
    }
  }

  /** The chunk of a byte that a read delivers is one of those it waited for. */
  lemma ReadChunk(P: Cache, off: nat, len: nat, k: nat) returns (i: nat)
    requires P.Valid() && k < P.Want(off, len)
    ensures i < |P.chunks| && InChunk(P, i, off + k) && Overlaps(P.chunks[i], off, len) && off + k < |P.blob|
  {
    i := ChunkOf(P.chunks, P.blob, off + k, |P.chunks|);
  }

  // ---------- frames ----------

  /** Settled chunks stay settled and keep what they read as. */
  ghost predicate Later(P: Cache, s: State, s': State)
    requires P.Valid() && Sized(P, s) && Sized(P, s')
  {
    && s.done <= s'.done
    && (forall i :: 0 <= i < |P.chunks| && s.once[i] == Spent ==> s'.once[i] == Spent)
    && forall i, b :: 0 <= i < |P.chunks| && Settled(P, s, i) && 0 <= b && InChunk(P, i, b) ==> SameExpect(P, s, s', i, b)
  }

  predicate SameExpect(P: Cache, s: State, s': State, i: nat, b: nat)
    requires P.Valid() && i < |P.chunks| && InChunk(P, i, b)
  {
    Inside(P.chunks, P.blob, i);
    Expect(P, s, b) == Expect(P, s', b)
  }

  /** Nothing changes for chunk i: it is not the one worked on. */
  lemma OtherChunk(P: Cache, s: State, s': State, w: nat, i: nat)
    requires P.Valid() && Sized(P, s) && Sized(P, s') && i < |P.chunks| && ChunkOk(P, s, i)
    requires s'.once[i] == s.once[i] != Running(w) && (i in s'.done <==> i in s.done)
    requires |s'.ws| == |s.ws| && forall v :: 0 <= v < |s.ws| && v != w ==> s'.ws[v] == s.ws[v]
    requires forall b: nat :: b < |P.blob| && InChunk(P, i, b) ==> s'.file[b] == s.file[b] && (b in s'.lost <==> b in s.lost)
    ensures ChunkOk(P, s', i)
  {
    hide Consecutive, Positive, Cache.Valid;
    Bounded(P, i);
    forall b: nat | InChunk(P, i, b)
      ensures ByteOk(P, s', i, b)
    {
      assert ByteOk(P, s, i, b);
    }
  }

  lemma Bounded(P: Cache, i: nat)
    requires P.Valid() && i < |P.chunks|
    ensures P.chunks[i].End() <= |P.blob|
  {
    Inside(P.chunks, P.blob, i);
  }

  lemma GotKept(P: Cache, s: State, s': State, job: Job, got: seq<Byte>)
    requires P.Valid() && Sized(P, s) && Sized(P, s') && Later(P, s, s') && ListOk(P, s, job, []) && GotOk(P, s, job, got)
    ensures GotOk(P, s', job, got)
  {
    hide Cache.Valid, Settled, Expect;
    forall k | 0 <= k < |got|
      ensures job.off + k < |P.blob| == |P.file0| && got[k] == Expect(P, s', job.off + k)
    {
      Lengths(P);
      var i := ReadChunk(P, job.off, job.len, k);
      assert Settled(P, s, i);
      assert SameExpect(P, s, s', i, job.off + k);
    }
  }

  lemma ListKept(P: Cache, s: State, s': State, job: Job, needed: seq<nat>)
    requires P.Valid() && Sized(P, s) && Sized(P, s') && Later(P, s, s') && ListOk(P, s, job, needed)
    ensures ListOk(P, s', job, needed)
  {
  }

  lemma OtherPc(P: Cache, s: State, s': State, v: nat)
    requires P.Valid() && Sized(P, s) && Sized(P, s') && Later(P, s, s') && v < |s.ws| == |s'.ws| && PcOk(P, s, v)
    requires s'.ws[v] == s.ws[v]
    requires forall i :: 0 <= i < |P.chunks| && s.once[i] == Running(v) ==> s'.once[i] == s.once[i]
    ensures PcOk(P, s', v)
  {
    hide Cache.Valid, Settled, GotOk, ListOk, Later;
    Grows(P, s, s');
    match s.ws[v] {
      case Idle =>
      case Errored(_) =>
      case Loading(job, needed) => ListKept(P, s, s', job, needed);
      case Writing(job, needed, _) => ListKept(P, s, s', job, needed);
      case Leaving(job, needed) => ListKept(P, s, s', job, needed);
      case Reading(job, got) => ListKept(P, s, s', job, []); GotKept(P, s, s', job, got);
      case Finished(job, got) => ListKept(P, s, s', job, []); GotKept(P, s, s', job, got);
    }
  }

  lemma Grows(P: Cache, s: State, s': State)
    requires P.Valid() && Sized(P, s) && Sized(P, s') && Later(P, s, s')
    ensures s.done <= s'.done
  {
  }

  lemma LaterUnlessLost(P: Cache, s: State, s': State)
    requires P.Valid() && Sized(P, s) && Sized(P, s') && s.done <= s'.done && s'.lost == s.lost
    requires forall i :: 0 <= i < |P.chunks| && s.once[i] == Spent ==> s'.once[i] == Spent
    ensures Later(P, s, s')
  {
    hide Cache.Valid, Settled;
  }

  /** The calls other than w. */
  lemma OthersKept(P: Cache, s: State, s': State, w: nat)
    requires P.Valid() && Inv(P, s) && Sized(P, s') && Later(P, s, s') && w < |s.ws|
    requires |s'.ws| == |s.ws| && forall v :: 0 <= v < |s.ws| && v != w ==> s'.ws[v] == s.ws[v]
    requires forall i :: 0 <= i < |P.chunks| && s'.once[i] != s.once[i] ==> s.once[i] == Fresh || s.once[i] == Running(w)
    ensures forall v :: 0 <= v < |s.ws| && v != w ==> PcOk(P, s', v)
  {
    hide Cache.Valid, Settled, PcOk, Later, ChunkOk;
    forall v | 0 <= v < |s.ws| && v != w
      ensures PcOk(P, s', v)
    {
      assert PcOk(P, s, v);
      OtherPc(P, s, s', v);
    }
  }

  lemma Lengths(P: Cache)
    requires P.Valid()
    ensures |P.blob| == |P.file0|
  {
  }

  // ---------- steps ----------

  /** Steps of a call outside `once` that change nothing but where it stands. */
  lemma LocalKeeps(P: Cache, s: State, w: nat, pc: Pc)
    requires P.Valid() && Inv(P, s) && w < |s.ws| && !s.ws[w].Writing? && !s.ws[w].Leaving?
    requires PcOk(P, s.(ws := s.ws[w := pc]), w)
    ensures Inv(P, s.(ws := s.ws[w := pc]))
  {
    hide Cache.Valid, Settled, PcOk, Later, DoneOk, ByteOk;
    var s' := s.(ws := s.ws[w := pc]);
    forall i | 0 <= i < |P.chunks|
      ensures ChunkOk(P, s', i)
    {
      assert ChunkOk(P, s, i) && OwnerOk(P, s, i);
      OtherChunk(P, s, s', w, i);
    }
    LaterUnlessLost(P, s, s');
    OthersKept(P, s, s', w);
  }

  lemma BeginKeeps(P: Cache, s: State, a: Action)
    requires P.Valid() && Inv(P, s) && P.Enabled(s, a) && (a.Begin? || a.BeginPreload?)
    ensures Inv(P, P.Apply(s, a))
  {
    hide Cache.Valid, Inv, Covers;
    match a
    case Begin(w, off, len, first, last) =>
      var needed := P.Needed(s.done, first, last);
      Shaped(P, s);
      forall i | 0 <= i < |P.chunks| && Overlaps(P.chunks[i], off, len)
        ensures i in needed || Settled(P, s, i)
      {
        Bounded(P, i);
      }
      LocalKeeps(P, s, w, Loading(Read(off, len), needed));
    case BeginPreload(w, chunk) =>
      Shaped(P, s);
      LocalKeeps(P, s, w, Loading(Preload, [chunk]));
  }

  lemma Shaped(P: Cache, s: State)
    requires P.Valid() && Inv(P, s)
    ensures Sized(P, s)
  {
  }

  lemma AtPc(P: Cache, s: State, w: nat)
    requires P.Valid() && Inv(P, s) && w < |s.ws|
    ensures Sized(P, s) && PcOk(P, s, w)
  {
  }

  lemma AtChunk(P: Cache, s: State, i: nat)
    requires P.Valid() && Inv(P, s) && i < |P.chunks|
    ensures Sized(P, s) && ChunkOk(P, s, i)
  {
  }

  lemma ListPassed(P: Cache, s: State, job: Job, needed: seq<nat>)
    requires Sized(P, s) && ListOk(P, s, job, needed) && needed != [] && needed[0] < |P.chunks| && Settled(P, s, needed[0])
    ensures ListOk(P, s, job, needed[1..])
  {
    assert needed == [needed[0]] + needed[1..];
    forall x | x in needed[1..]
      ensures x in needed && x < |P.chunks|
    {
    }
  }

  lemma ReadKeeps(P: Cache, s: State, a: Action)
    requires P.Valid() && Inv(P, s) && P.Enabled(s, a) && (a.Pass? || a.Start? || a.ReadByte? || a.Finish?)
    ensures Inv(P, P.Apply(s, a))
  {
    hide Cache.Valid, Inv, Covers, Settled, ListOk;
    var w, pc := a.w, s.ws[a.w];
    AtPc(P, s, w);
    match a
    case Pass(_) =>
      SpentIsSettled(P, s, pc.needed[0]);
      ListPassed(P, s, pc.job, pc.needed);
      SameList(P, s, P.Apply(s, a), pc.job, pc.needed[1..]);
      LocalKeeps(P, s, w, Loading(pc.job, pc.needed[1..]));
    case Start(_) =>
      SameList(P, s, P.Apply(s, a), pc.job, []);
      LocalKeeps(P, s, w, if pc.job.Preload? then Idle else Reading(pc.job, []));
    case ReadByte(_) =>
      var off, k := pc.job.off, |pc.got|;
      var i := ReadChunk(P, off, pc.job.len, k);
      AtChunk(P, s, i);
      ListSettles(P, s, pc.job, i);
      SettledReads(P, s, i, off + k);
      SameList(P, s, P.Apply(s, a), pc.job, []);
      GotMore(P, s, P.Apply(s, a), pc.job, pc.got);
      LocalKeeps(P, s, w, Reading(pc.job, pc.got + [s.file[off + k]]));
    case Finish(_) =>
      SameList(P, s, P.Apply(s, a), pc.job, []);
      LocalKeeps(P, s, w, Finished(pc.job, pc.got));
  }

  lemma SpentIsSettled(P: Cache, s: State, i: nat)
    requires Sized(P, s) && i < |P.chunks| && s.once[i] == Spent
    ensures Settled(P, s, i)
  {
  }

  lemma ListSettles(P: Cache, s: State, job: Job, i: nat)
    requires Sized(P, s) && ListOk(P, s, job, []) && job.Read? && i < |P.chunks| && Overlaps(P.chunks[i], job.off, job.len)
    ensures Settled(P, s, i)
  {
  }

  lemma SameList(P: Cache, s: State, s': State, job: Job, needed: seq<nat>)
    requires Sized(P, s) && Sized(P, s') && ListOk(P, s, job, needed) && s'.done == s.done && s'.once == s.once
    ensures ListOk(P, s', job, needed)
  {
  }

  lemma GotMore(P: Cache, s: State, s': State, job: Job, got: seq<Byte>)
    requires P.Valid() && Sized(P, s) && s'.lost == s.lost && GotOk(P, s, job, got) && |got| < P.Want(job.off, job.len)
    requires job.off + |got| < |P.blob| && s.file[job.off + |got|] == Expect(P, s, job.off + |got|)
    ensures GotOk(P, s', job, got + [s.file[job.off + |got|]])
  {
    hide Cache.Valid;
    Lengths(P);
  }

  /** Byte b belongs to one chunk only. */
  lemma OneChunk(P: Cache, i: nat, c: nat, b: nat)
    requires P.Valid() && i < |P.chunks| && c < |P.chunks| && InChunk(P, i, b) && InChunk(P, c, b)
    ensures i == c
  {
    if i < c { InOrder(P.chunks, i, c); }
    if c < i { InOrder(P.chunks, c, i); }
  }

  /** Steps inside `once` of chunk c: it is enough to look at c and at the call itself. */
  lemma OnceKeeps(P: Cache, s: State, s': State, w: nat, c: nat)
    requires P.Valid() && Inv(P, s) && w < |s.ws| && c < |P.chunks| && (s.once[c] == Fresh || s.once[c] == Running(w))
    requires s.ws[w].Writing? || s.ws[w].Leaving? ==> (s.ws[w].needed != [] && s.ws[w].needed[0] == c)
    requires Sized(P, s') && |s'.ws| == |s.ws| && forall v :: 0 <= v < |s.ws| && v != w ==> s'.ws[v] == s.ws[v]
    requires forall i :: 0 <= i < |P.chunks| && i != c ==> s'.once[i] == s.once[i] && (i in s'.done <==> i in s.done)
    requires forall b: nat :: b < |P.blob| && !InChunk(P, c, b) ==> s'.file[b] == s.file[b] && (b in s'.lost <==> b in s.lost)
    requires Later(P, s, s') && ChunkOk(P, s', c) && PcOk(P, s', w)
    ensures Inv(P, s')
  {
    hide Cache.Valid, Settled, PcOk, Later, DoneOk, ByteOk, InChunk;
    forall i | 0 <= i < |P.chunks|
      ensures ChunkOk(P, s', i)
    {
      if i != c {
        assert ChunkOk(P, s, i) && OwnerOk(P, s, i);
        forall b: nat | InChunk(P, i, b)
          ensures !InChunk(P, c, b)
        {
          if InChunk(P, c, b) { OneChunk(P, i, c, b); }
        }
        OtherChunk(P, s, s', w, i);
      }
    }
    OthersKept(P, s, s', w);
  }

  lemma EnterKeeps(P: Cache, s: State, a: Action)
    requires P.Valid() && Inv(P, s) && P.Enabled(s, a) && a.Enter?
    ensures Inv(P, P.Apply(s, a))
  {
    hide Cache.Valid, Inv, Covers, Settled, ListOk, Later;
    var w, pc, s' := a.w, s.ws[a.w], P.Apply(s, a);
    var c := pc.needed[0];
    AtPc(P, s, w);
    AtChunk(P, s, c);
    Bounded(P, c);
    LaterUnlessLost(P, s, s');
    ListKept(P, s, s', pc.job, pc.needed);
    forall b: nat | InChunk(P, c, b)
      ensures ByteOk(P, s', c, b)
    {
      assert ByteOk(P, s, c, b);
    }
    OnceKeeps(P, s, s', w, c);
  }

  lemma WriteKeeps(P: Cache, s: State, a: Action)
    requires P.Valid() && Inv(P, s) && P.Enabled(s, a) && a.WriteByte?
    ensures Inv(P, P.Apply(s, a))
  {
    hide Cache.Valid, Inv, Covers, Settled, ListOk, Later;
    var w, pc, s' := a.w, s.ws[a.w], P.Apply(s, a);
    AtPc(P, s, w);
    var c := pc.needed[0];
    AtChunk(P, s, c);
    Bounded(P, c);
    LaterUnlessLost(P, s, s');
    ListKept(P, s, s', pc.job, pc.needed);
    forall b: nat | InChunk(P, c, b)
      ensures ByteOk(P, s', c, b)
    {
      assert ByteOk(P, s, c, b);
    }
    OnceKeeps(P, s, s', w, c);
  }

  lemma MarkKeeps(P: Cache, s: State, a: Action)
    requires P.Valid() && Inv(P, s) && P.Enabled(s, a) && a.Mark?
    ensures Inv(P, P.Apply(s, a))
  {
    hide Cache.Valid, Inv, Covers, Settled, ListOk, Later;
    var w, pc, s' := a.w, s.ws[a.w], P.Apply(s, a);
    AtPc(P, s, w);
    var c := pc.needed[0];
    AtChunk(P, s, c);
    Bounded(P, c);
    LaterUnlessLost(P, s, s');
    ListKept(P, s, s', pc.job, pc.needed);
    forall b: nat | InChunk(P, c, b)
      ensures ByteOk(P, s', c, b)
    {
      assert ByteOk(P, s, c, b);
    }
    OnceKeeps(P, s, s', w, c);
  }

  lemma LeaveKeeps(P: Cache, s: State, a: Action)
    requires P.Valid() && Inv(P, s) && P.Enabled(s, a) && a.Leave?
    ensures Inv(P, P.Apply(s, a))
  {
    hide Cache.Valid, Inv, Covers, Settled, ListOk, Later;
    var w, pc, s' := a.w, s.ws[a.w], P.Apply(s, a);
    AtPc(P, s, w);
    var c := pc.needed[0];
    AtChunk(P, s, c);
    Bounded(P, c);
    LaterUnlessLost(P, s, s');
    ListKept(P, s, s', pc.job, pc.needed);
    SpentIsSettled(P, s', c);
    ListPassed(P, s', pc.job, pc.needed);
    forall b: nat | InChunk(P, c, b)
      ensures ByteOk(P, s', c, b) && b !in s'.lost
    {
      assert ByteOk(P, s, c, b);
    }
    OnceKeeps(P, s, s', w, c);
  }

  /** A failed load: what the call has not written yet is lost, unless the file had it from the start. */
  lemma FailKeeps(P: Cache, s: State, a: Action)
    requires P.Valid() && Inv(P, s) && P.Enabled(s, a) && a.Fail?
    ensures Inv(P, P.Apply(s, a))
  {
    hide Cache.Valid, Inv, Covers, ListOk, Later;
    var w, pc, s' := a.w, s.ws[a.w], P.Apply(s, a);
    AtPc(P, s, w);
    var c := pc.needed[0];
    AtChunk(P, s, c);
    Bounded(P, c);
    Lengths(P);
    FailLater(P, s, a);
    forall b: nat | InChunk(P, c, b)
      ensures ByteOk(P, s', c, b)
    {
      assert ByteOk(P, s, c, b);
    }
    OnceKeeps(P, s, s', w, c);
  }

  lemma FailLater(P: Cache, s: State, a: Action)
    requires P.Valid() && Inv(P, s) && P.Enabled(s, a) && a.Fail? && Sized(P, P.Apply(s, a))
    ensures Later(P, s, P.Apply(s, a))
  {
    hide Cache.Valid, Inv, Covers, ListOk;
    var w, pc, s' := a.w, s.ws[a.w], P.Apply(s, a);
    AtPc(P, s, w);
    var c := pc.needed[0];
    AtChunk(P, s, c);
    forall i: nat, b: nat | i < |P.chunks| && Settled(P, s, i) && InChunk(P, i, b)
      ensures SameExpect(P, s, s', i, b)
    {
      Bounded(P, i);
      if b in pc.left {
        OneChunk(P, i, c, b);
        SkippedByte(P, i, b);
      }
    }
  }

  lemma SkippedByte(P: Cache, i: nat, b: nat)
    requires P.Valid() && i < |P.chunks| && InChunk(P, i, b) && P.Skippable(i)
    ensures b < |P.blob| == |P.file0| && P.file0[b] == P.blob[b]
  {
    Inside(P.chunks, P.blob, i);
    assert P.GoodAt(i);
    assert P.Same(i, b);
  }

  lemma StepKeeps(P: Cache, s: State, a: Action)
    requires P.Valid() && Inv(P, s) && P.Enabled(s, a)
    ensures Inv(P, P.Apply(s, a))
  {
    hide Cache.Valid, Cache.Enabled, Cache.Apply, Inv;
    match a {
      case Begin(_, _, _, _, _) => BeginKeeps(P, s, a);
      case BeginPreload(_, _) => BeginKeeps(P, s, a);
      case Enter(_) => EnterKeeps(P, s, a);
      case Pass(_) => ReadKeeps(P, s, a);
      case WriteByte(_, _) => WriteKeeps(P, s, a);
      case Fail(_) => FailKeeps(P, s, a);
      case Mark(_) => MarkKeeps(P, s, a);
      case Leave(_) => LeaveKeeps(P, s, a);
      case Start(_) => ReadKeeps(P, s, a);
      case ReadByte(_) => ReadKeeps(P, s, a);
      case Finish(_) => ReadKeeps(P, s, a);
    }
  }

  lemma {:induction false} RunKeeps(P: Cache, s: State, acts: seq<Action>, s': State)
    requires P.Valid() && Inv(P, s) && P.Reaches(s, acts, s')
    ensures Inv(P, s')
    decreases |acts|
  {
    hide Cache.Valid, Cache.Enabled, Cache.Apply, Inv;
    if acts != [] {
      StepKeeps(P, s, acts[0]);
      RunKeeps(P, P.Apply(s, acts[0]), acts[1..], s');
    }
  }

  // ---------- what follows ----------

  /** The blob's bytes from off on, len of them or as many as there are. */
  function Plain(blob: seq<Byte>, off: nat, len: nat): seq<Byte> {
    if off >= |blob| then []
    else if off + len <= |blob| then blob[off..off + len]
    else blob[off..]
  }

  lemma WantIs(P: Cache, off: nat, len: nat)
    ensures P.Want(off, len) == |Plain(P.blob, off, len)|
  {
  }

  /** A read that ends without error delivers each byte of its range from the blob, or from the first file where a failed load lost it. */
  lemma {:induction false} ReadReturns(P: Cache, s: State, acts: seq<Action>, s': State, w: nat)
    requires P.Valid() && P.Initial(s) && P.Reaches(s, acts, s') && w < |s'.ws| && s'.ws[w].Finished?
    ensures var pc := s'.ws[w];
            && pc.job.Read? && |pc.got| == |Plain(P.blob, pc.job.off, pc.job.len)|
            && forall k :: 0 <= k < |pc.got| ==> pc.got[k] == Expect(P, s', pc.job.off + k)
  {
    InitialInv(P, s);
    RunKeeps(P, s, acts, s');
    AtPc(P, s', w);
    WantIs(P, s'.ws[w].job.off, s'.ws[w].job.len);
  }

  /** A finished read is right exactly if the file had from the start whatever failed loads lost of its range. */
  lemma {:induction false} ReadIsRightIff(P: Cache, s: State, acts: seq<Action>, s': State, w: nat)
    requires P.Valid() && P.Initial(s) && P.Reaches(s, acts, s') && w < |s'.ws| && s'.ws[w].Finished?
    ensures s'.ws[w].job.Read?
    ensures var job := s'.ws[w].job;
            s'.ws[w].got == Plain(P.blob, job.off, job.len) <==>
            forall b: nat :: b in s'.lost && job.off <= b < job.off + job.len && b < |P.blob| ==> P.file0[b] == P.blob[b]
  {
    hide Cache.Valid, Cache.Initial, Cache.Reaches;
    ReadReturns(P, s, acts, s', w);
    Lengths(P);
    var job, got := s'.ws[w].job, s'.ws[w].got;
    var plain := Plain(P.blob, job.off, job.len);
    if got == plain {
      forall b: nat | b in s'.lost && job.off <= b < job.off + job.len && b < |P.blob|
        ensures P.file0[b] == P.blob[b]
      {
        assert got[b - job.off] == Expect(P, s', job.off + (b - job.off));
      }
    } else {
      var k :| 0 <= k < |got| && got[k] != plain[k];
      assert job.off + k in s'.lost && P.file0[job.off + k] != P.blob[job.off + k];
    }
  }

  /** The job of a call that has begun to read. */
  predicate Reads(pc: Pc, off: nat, len: nat) {
    !pc.Idle? && pc.job == Read(off, len)
  }

  /** A call reads what it was asked to read. */
  lemma {:induction false} JobIsFromCaller(P: Cache, s: State, acts: seq<Action>, s': State, w: nat, off: nat, len: nat)
    requires P.Reaches(s, acts, s') && w < |s.ws| == |s'.ws| && !Reads(s.ws[w], off, len) && Reads(s'.ws[w], off, len)
    ensures exists k :: 0 <= k < |acts| && acts[k].Begin? && acts[k].w == w && acts[k].off == off && acts[k].len == len
    decreases |acts|
  {
    if acts != [] {
      var a, s1 := acts[0], P.Apply(s, acts[0]);
      if Reads(s1.ws[w], off, len) {
        assert a.Begin? && a.w == w && a.off == off && a.len == len;
      } else {
        hide Cache.Apply, Cache.Enabled;
        JobIsFromCaller(P, s1, acts[1..], s', w, off, len);
        var k :| 0 <= k < |acts[1..]| && acts[1..][k].Begin? && acts[1..][k].w == w && acts[1..][k].off == off && acts[1..][k].len == len;
        assert acts[k + 1] == acts[1..][k];
      }
    }
  }

  lemma {:induction false} SameCalls(P: Cache, s: State, acts: seq<Action>, s': State)
    requires P.Reaches(s, acts, s')
    ensures |s'.ws| == |s.ws|
    decreases |acts|
  {
    if acts != [] { SameCalls(P, P.Apply(s, acts[0]), acts[1..], s'); }
  }

  /** Without a failed load, in every interleaving every read returns the blob's bytes of the range it was called with. */
  lemma {:induction false} ReadsAreRight(P: Cache, s: State, acts: seq<Action>, s': State, w: nat) returns (k: nat)
    requires P.Valid() && P.Initial(s) && P.Reaches(s, acts, s') && w < |s'.ws| && s'.ws[w].Finished?
    requires forall i :: 0 <= i < |acts| ==> !acts[i].Fail?
    ensures k < |acts| && acts[k].Begin? && acts[k].w == w
    ensures s'.ws[w].got == Plain(P.blob, acts[k].off, acts[k].len)
  {
    NothingLost(P, s, acts, s');
    ReadIsRightIff(P, s, acts, s', w);
    SameCalls(P, s, acts, s');
    var job := s'.ws[w].job;
    JobIsFromCaller(P, s, acts, s', w, job.off, job.len);
    k :| 0 <= k < |acts| && acts[k].Begin? && acts[k].w == w && acts[k].off == job.off && acts[k].len == job.len;
  }

  lemma {:induction false} NothingLost(P: Cache, s: State, acts: seq<Action>, s': State)
    requires P.Reaches(s, acts, s') && s.lost == {} && forall i :: 0 <= i < |acts| ==> !acts[i].Fail?
    ensures s'.lost == {}
    decreases |acts|
  {
    if acts != [] { NothingLost(P, P.Apply(s, acts[0]), acts[1..], s'); }
  }

  /** Whenever the state is saved, the chunks it marks are in the file. */
  lemma {:induction false} MarkedChunksAreInFile(P: Cache, s: State, acts: seq<Action>, s': State, i: nat, b: nat)
    requires P.Valid() && P.Initial(s) && P.Reaches(s, acts, s') && i in s'.done && i < |P.chunks| && InChunk(P, i, b)
    ensures |s'.file| == |P.blob| && b < |P.blob| && s'.file[b] == P.blob[b]
  {
    InitialInv(P, s);
    RunKeeps(P, s, acts, s');
    AtChunk(P, s', i);
    SettledReads(P, s', i, b);
  }

  lemma {:induction false} DoneGrows(P: Cache, s: State, acts: seq<Action>, s': State)
    requires P.Reaches(s, acts, s')
    ensures s.done <= s'.done
    decreases |acts|
  {
    if acts != [] { DoneGrows(P, P.Apply(s, acts[0]), acts[1..], s'); }
  }

  lemma {:induction false} DoneInside(P: Cache, s: State, acts: seq<Action>, s': State)
    requires P.Valid() && Inv(P, s) && P.Reaches(s, acts, s') && forall i :: i in s.done ==> i < |P.chunks|
    ensures forall i :: i in s'.done ==> i < |P.chunks|
    decreases |acts|
  {
    hide Cache.Valid, Inv, Cache.Apply;
    if acts != [] {
      StepKeeps(P, s, acts[0]);
      MarkedInside(P, s, acts[0]);
      DoneInside(P, P.Apply(s, acts[0]), acts[1..], s');
    }
  }

  lemma MarkedInside(P: Cache, s: State, a: Action)
    requires P.Valid() && Inv(P, s) && P.Enabled(s, a) && forall i :: i in s.done ==> i < |P.chunks|
    ensures forall i :: i in P.Apply(s, a).done ==> i < |P.chunks|
  {
    hide Cache.Valid, Inv;
    AtPc(P, s, a.w);
  }

  /** A saved state and the file as it is at any later time are a valid start for the next process. */
  lemma {:induction false} RestartIsValid(P: Cache, s: State, acts: seq<Action>, saved: State, more: seq<Action>, last: State)
    requires P.Valid() && P.Initial(s) && P.Reaches(s, acts, saved) && P.Reaches(saved, more, last)
    ensures Cache(P.chunks, P.blob, P.nullID, last.file, saved.done).Valid()
  {
    var P' := Cache(P.chunks, P.blob, P.nullID, last.file, saved.done);
    InitialInv(P, s);
    RunKeeps(P, s, acts, saved);
    DoneInside(P, s, acts, saved);
    RunKeeps(P, saved, more, last);
    DoneGrows(P, saved, more, last);
    hide Inv, Cache.Initial, Cache.Reaches, Consecutive, Positive, Settled;
    Shaped(P, last);
    forall i: nat | i < |P.chunks|
      ensures P'.GoodAt(i)
    {
      if P'.Skippable(i) {
        AtChunk(P, last, i);
        forall b: nat | P.chunks[i].start <= b < P.chunks[i].End()
          ensures P'.Same(i, b)
        {
          DoneIsSettled(P, last, i);
          SettledReads(P, last, i, b);
        }
      }
    }
  }

  lemma DoneIsSettled(P: Cache, s: State, i: nat)
    requires Sized(P, s) && i < |P.chunks| && (i in s.done || P.chunks[i].id == P.nullID)
    ensures Settled(P, s, i)
  {
  }

  /** A blank file of full length is a valid start, if the null chunk's ID stands for zeros only. */
  lemma BlankIsValid(chunks: seq<IndexChunk>, blob: seq<Byte>, nullID: ChunkID)
    requires Covers(chunks, blob)
    requires forall i :: 0 <= i < |chunks| && chunks[i].id == nullID ==> Slice(chunks, blob, i) == ZeroBytes(chunks[i].size)
    ensures Cache(chunks, blob, nullID, ZeroBytes(|blob|), {}).Valid()
  {
    hide Consecutive, Positive;
    var P := Cache(chunks, blob, nullID, ZeroBytes(|blob|), {});
    forall i: nat | i < |chunks|
      ensures P.GoodAt(i)
    {
      if chunks[i].id == nullID {
        forall b: nat | chunks[i].start <= b < chunks[i].End()
          ensures P.Same(i, b)
        {
          Inside(chunks, blob, i);
          assert Slice(chunks, blob, i)[b - chunks[i].start] == 0;
        }
      }
    }
  }

  // ---------- an example ----------

  /** One chunk of one byte. */
  const Tiny := Cache([IndexChunk([1], 0, 1)], [7], [], [0], {})
  const TinyRead := Read(0, 1)

  function TinyState(once: Once, lost: set<nat>, one: Pc, two: Pc): State {
    State([0], {}, [once], lost, [one, two])
  }

  lemma TinyIsValid()
    ensures Tiny.Valid() && Tiny.Initial(TinyState(Fresh, {}, Idle, Idle)) && Plain(Tiny.blob, 0, 1) == [7]
    ensures Tiny.All(0) == {0} && Tiny.Needed({}, 0, 0) == [0]
    ensures IsRange(Tiny.chunks, Tiny.blob, 0, 1, 0, 0)
  {
    assert FollowsAt(Tiny.chunks, 0);
    assert Range(0, 1) == {0};
    assert Tiny.Needed({}, 0, 0) == [0] + Tiny.Needed({}, 1, 0);
  }

  /** The first read's load fails. */
  lemma TinyFails()
    ensures Tiny.Reaches(TinyState(Fresh, {}, Idle, Idle), [Begin(0, 0, 1, 0, 0), Enter(0), Fail(0)], TinyState(Spent, {0}, Errored(TinyRead), Idle))
  {
    TinyIsValid();
    var s0, s1 := TinyState(Fresh, {}, Idle, Idle), TinyState(Fresh, {}, Loading(TinyRead, [0]), Idle);
    var s2, s3 := TinyState(Running(0), {}, Writing(TinyRead, [0], {0}), Idle), TinyState(Spent, {0}, Errored(TinyRead), Idle);
    assert {} + {0} == {0};
    OneStep(Tiny, s2, Fail(0), s3, [], s3);
    OneStep(Tiny, s1, Enter(0), s2, [Fail(0)], s3);
    OneStep(Tiny, s0, Begin(0, 0, 1, 0, 0), s1, [Enter(0), Fail(0)], s3);
  }

  lemma TinyDelivers()
    ensures Tiny.Reaches(TinyState(Spent, {0}, Errored(TinyRead), Loading(TinyRead, [])), [Start(1), ReadByte(1), Finish(1)],
                         TinyState(Spent, {0}, Errored(TinyRead), Finished(TinyRead, [0])))
  {
    var s5 := TinyState(Spent, {0}, Errored(TinyRead), Loading(TinyRead, []));
    var s6 := TinyState(Spent, {0}, Errored(TinyRead), Reading(TinyRead, []));
    var s7 := TinyState(Spent, {0}, Errored(TinyRead), Reading(TinyRead, [0]));
    var s8 := TinyState(Spent, {0}, Errored(TinyRead), Finished(TinyRead, [0]));
    OneStep(Tiny, s7, Finish(1), s8, [], s8);
    assert Tiny.Apply(s6, ReadByte(1)).ws[1].got == [0];
    OneStep(Tiny, s6, ReadByte(1), s7, [Finish(1)], s8);
    OneStep(Tiny, s5, Start(1), s6, [ReadByte(1), Finish(1)], s8);
  }

  /** The second read finds the chunk's `once` spent. */
  lemma TinyReads()
    ensures Tiny.Reaches(TinyState(Spent, {0}, Errored(TinyRead), Idle), [Begin(1, 0, 1, 0, 0), Pass(1), Start(1), ReadByte(1), Finish(1)],
                         TinyState(Spent, {0}, Errored(TinyRead), Finished(TinyRead, [0])))
  {
    hide Cache.Valid, IsRange;
    TinyIsValid();
    TinyDelivers();
    var s3, s4 := TinyState(Spent, {0}, Errored(TinyRead), Idle), TinyState(Spent, {0}, Errored(TinyRead), Loading(TinyRead, [0]));
    var s5 := TinyState(Spent, {0}, Errored(TinyRead), Loading(TinyRead, []));
    var s8 := TinyState(Spent, {0}, Errored(TinyRead), Finished(TinyRead, [0]));
    hide Cache.Reaches;
    OneStep(Tiny, s4, Pass(1), s5, [Start(1), ReadByte(1), Finish(1)], s8);
    OneStep(Tiny, s3, Begin(1, 0, 1, 0, 0), s4, [Pass(1), Start(1), ReadByte(1), Finish(1)], s8);
  }

  lemma {:induction false} OneStep(P: Cache, s: State, a: Action, s': State, acts: seq<Action>, last: State)
    requires P.Enabled(s, a) && P.Apply(s, a) == s' && P.Reaches(s', acts, last)
    ensures P.Reaches(s, [a] + acts, last)
  {
    assert ([a] + acts)[1..] == acts;
  }

  lemma {:induction false} RunsJoin(P: Cache, s: State, a: seq<Action>, s': State, b: seq<Action>, s'': State)
    requires P.Reaches(s, a, s') && P.Reaches(s', b, s'')
    ensures P.Reaches(s, a + b, s'')
    decreases |a|
  {
    if a == [] {
      assert a + b == b;
    } else {
      RunsJoin(P, P.Apply(s, a[0]), a[1..], s', b, s'');
      OneStep(P, s, a[0], P.Apply(s, a[0]), a[1..] + b, s'');
      assert [a[0]] + (a[1..] + b) == a + b;
    }
  }

  /** A load that fails spends the chunk's `once`: the next read of it ends without error and returns what the file held. */
  lemma FailedLoadIsForgotten()
    ensures exists P: Cache, s, acts, s' ::
      && P.Valid() && P.Initial(s) && P.Reaches(s, acts, s') && |s'.ws| == 2
      && s'.ws[0].Errored? && s'.ws[1] == Finished(Read(0, 1), [0]) && Plain(P.blob, 0, 1) == [7]
  {
    hide Cache.Valid, Cache.Initial, Cache.Reaches;
    TinyIsValid();
    TinyFails();
    TinyReads();
    RunsJoin(Tiny, TinyState(Fresh, {}, Idle, Idle), [Begin(0, 0, 1, 0, 0), Enter(0), Fail(0)], TinyState(Spent, {0}, Errored(TinyRead), Idle),
             [Begin(1, 0, 1, 0, 0), Pass(1), Start(1), ReadByte(1), Finish(1)], TinyState(Spent, {0}, Errored(TinyRead), Finished(TinyRead, [0])));
  }
}
