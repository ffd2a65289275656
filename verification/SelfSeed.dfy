/**
 The self-seed: segments of the target are recorded as they complete, in any order, and
 become usable as a copy source once everything before them is complete as well.
 */
module SelfSeed {
  import opened Chunking

  type Positions = map<ChunkID, seq<nat>>

  /** A contiguous section of the index, first and last inclusive. */
  datatype Segment = Segment(first: nat, last: nat)

  /** The mutable fields of a self-seed. */
  datatype Fields = Fields(written: nat, cache: map<nat, nat>, pos: Positions)

  /** Append the positions a..b-1 to the lists of their chunks. */
  function Record(chunks: seq<IndexChunk>, pos: Positions, a: nat, b: nat): Positions
    requires b <= |chunks|
    decreases b
  {
    if a >= b then pos else
      var p, id := Record(chunks, pos, a, b - 1), chunks[b - 1].id;
      p[id := (if id in p then p[id] else []) + [b - 1]]
  }

  predicate CacheInside(cache: map<nat, nat>, n: nat) {
    forall k :: k in cache ==> cache[k] <= n
  }

  /** The loop of `add`: while the segment at the write pointer is known, record it and move on. */
  function Drain(chunks: seq<IndexChunk>, f: Fields): Fields
    requires CacheInside(f.cache, |chunks|)
    decreases |f.cache|
  {
    if f.written !in f.cache then f else
      var next := f.cache[f.written];
      Shrinks(f.cache, f.written);
      Drain(chunks, Fields(next, f.cache - {f.written}, Record(chunks, f.pos, f.written, next)))
  }

  lemma Shrinks(m: map<nat, nat>, k: nat)
    requires k in m
    ensures |m - {k}| < |m|
  {
    assert m == (m - {k})[k := m[k]];
  }

  function Added(chunks: seq<IndexChunk>, f: Fields, s: Segment): Fields
    requires CacheInside(f.cache, |chunks|) && s.last < |chunks|
  {
    Drain(chunks, f.(cache := f.cache[s.first := s.last + 1]))
  }

  class Seed {
    const chunks: seq<IndexChunk>
    var written: nat
    var cache: map<nat, nat>
    var pos: Positions

    ghost predicate Valid()
      reads this
    {
      CacheInside(cache, |chunks|)
    }

    ghost function State(): Fields
      reads this
    {
      Fields(written, cache, pos)
    }

    constructor (chunks: seq<IndexChunk>)
      ensures Valid() && this.chunks == chunks && State() == Fields(0, map[], map[])
    {
      this.chunks := chunks;
      written, cache, pos := 0, map[], map[];
    }

    /** Record a segment that has been written to the file. */
    method Add(s: Segment)
      requires Valid() && s.last < |chunks|
      modifies this
      ensures Valid() && State() == Added(chunks, old(State()), s)
    {
      cache := cache[s.first := s.last + 1];
      ghost var start := State();
      while written in cache
        invariant Valid() && Drain(chunks, State()) == Drain(chunks, start)
        decreases |cache|
      {
        var next := cache[written];
        RecordRange(written, next);
        Shrinks(cache, written);
        cache := cache - {written};
        written := next;
      }
    }

    method RecordRange(from: nat, next: nat)
      requires next <= |chunks|
      modifies this`pos
      ensures pos == Record(chunks, old(pos), from, next)
    {
      NothingToRecord(chunks, pos, from, next);
      for i := from to Max(from, next)
        invariant pos == Record(chunks, old(pos), from, if next < from then next else i)
      {
        var id := chunks[i].id;
        pos := pos[id := (if id in pos then pos[id] else []) + [i]];
      }
    }

    /** The first written chunk with this ID, if there is one: a position below `written`, and the least. */
    method GetChunk(id: ChunkID) returns (found: bool, first: nat)
      requires written <= |chunks| && pos == Record(chunks, map[], 0, written)
      ensures found <==> exists i :: 0 <= i < written && chunks[i].id == id
      ensures found ==> first < written && chunks[first].id == id
      ensures found ==> forall i :: 0 <= i < first ==> chunks[i].id != id
    {
      RecordedPositions(chunks, written, id);
      hide Record;
      found := id in pos;
      first := if found then pos[id][0] else 0;
    }
  }

  function Max(a: nat, b: nat): nat { if a < b then b else a }

  lemma NothingToRecord(chunks: seq<IndexChunk>, p: Positions, a: nat, b: nat)
    requires b <= |chunks|
    ensures b <= a ==> Record(chunks, p, a, b) == p
    ensures a <= |chunks| ==> Record(chunks, p, a, a) == p
  {
  }

  // ---------- order independence ----------

  /** Segments that cut the chunk list into consecutive non-empty pieces. */
  predicate Tiles(segs: seq<Segment>, n: nat) {
    forall i :: 0 <= i < |segs| ==> TileAt(segs, n, i)
  }

  predicate TileAt(segs: seq<Segment>, n: nat, i: nat)
    requires i < |segs|
  {
    segs[i].first == StartOf(segs, i) && segs[i].first <= segs[i].last < n
  }

  function StartOf(segs: seq<Segment>, i: nat): nat
    requires i <= |segs|
  {
    if i == 0 then 0 else segs[i - 1].last + 1
  }

  lemma {:induction false} StartsGrow(segs: seq<Segment>, n: nat, i: nat, j: nat)
    requires Tiles(segs, n) && i < j <= |segs|
    ensures StartOf(segs, i) < StartOf(segs, j) <= n
    decreases j
  {
    assert TileAt(segs, n, j - 1);
    if i < j - 1 { StartsGrow(segs, n, i, j - 1); }
  }

  /** m leading segments have been added, the next has not. */
  predicate Leading(added: set<nat>, m: nat) {
    m !in added && forall i :: 0 <= i < m ==> i in added
  }

  /**
   What the seed holds after the segments in `added`: the write pointer is the end of the longest
   initial run, all positions below it are recorded, and the cache holds the later segments only.
   */
  ghost predicate Settled(chunks: seq<IndexChunk>, segs: seq<Segment>, added: set<nat>, m: nat, f: Fields) {
    && m <= |segs| && Leading(added, m) && f.written == StartOf(segs, m) <= |chunks|
    && f.pos == Record(chunks, map[], 0, f.written)
    && CacheIs(segs, added, m, f.cache)
  }

  /** The cache maps the starts of the added segments from m on to their ends, and nothing else. */
  ghost predicate CacheIs(segs: seq<Segment>, added: set<nat>, m: nat, cache: map<nat, nat>) {
    && (forall i :: m <= i < |segs| && i in added ==> segs[i].first in cache && cache[segs[i].first] == segs[i].last + 1)
    && (forall k :: k in cache ==> exists i :: m <= i < |segs| && i in added && segs[i].first == k)
  }

  lemma {:induction false} RecordJoins(chunks: seq<IndexChunk>, a: nat, b: nat)
    requires a <= b <= |chunks|
    ensures Record(chunks, Record(chunks, map[], 0, a), a, b) == Record(chunks, map[], 0, b)
    decreases b
  {
    if a < b { RecordJoins(chunks, a, b - 1); }
  }

  lemma CacheBounded(segs: seq<Segment>, n: nat, added: set<nat>, m: nat, cache: map<nat, nat>)
    requires Tiles(segs, n) && CacheIs(segs, added, m, cache)
    ensures CacheInside(cache, n)
  {
    forall k | k in cache
      ensures cache[k] <= n
    {
      var i :| m <= i < |segs| && i in added && segs[i].first == k;
      assert TileAt(segs, n, i);
    }
  }

  lemma FirstsDiffer(segs: seq<Segment>, n: nat, i: nat, j: nat)
    requires Tiles(segs, n) && i < j < |segs|
    ensures segs[i].first < segs[j].first
  {
    StartsGrow(segs, n, i, j);
    assert TileAt(segs, n, i) && TileAt(segs, n, j);
  }

  lemma CacheDropFirst(segs: seq<Segment>, n: nat, added: set<nat>, m: nat, cache: map<nat, nat>)
    requires Tiles(segs, n) && CacheIs(segs, added, m, cache) && m < |segs| && m in added
    ensures CacheIs(segs, added, m + 1, cache - {segs[m].first})
  {
    var c := cache - {segs[m].first};
    forall i | m + 1 <= i < |segs| && i in added
      ensures segs[i].first in c && c[segs[i].first] == segs[i].last + 1
    {
      FirstsDiffer(segs, n, m, i);
    }
    forall k | k in c
      ensures exists i :: m + 1 <= i < |segs| && i in added && segs[i].first == k
    {
      var i :| m <= i < |segs| && i in added && segs[i].first == k;
      assert i != m;
    }
  }

  /** Draining advances the pointer over the whole initial run. */
  lemma {:induction false} DrainSettles(chunks: seq<IndexChunk>, segs: seq<Segment>, added: set<nat>, m: nat, f: Fields) returns (m': nat)
    requires Tiles(segs, |chunks|) && m <= |segs| && (forall i :: 0 <= i < m ==> i in added)
    requires forall i :: i in added ==> i < |segs|
    requires f.written == StartOf(segs, m) <= |chunks| && f.pos == Record(chunks, map[], 0, f.written)
    requires CacheIs(segs, added, m, f.cache)
    ensures CacheInside(f.cache, |chunks|) && Settled(chunks, segs, added, m', Drain(chunks, f))
    decreases |segs| - m
  {
    hide Tiles, Record, CacheInside;
    CacheBounded(segs, |chunks|, added, m, f.cache);
    if m in added {
      var next := segs[m].last + 1;
      TileHere(segs, |chunks|, m);
      assert f.cache[f.written] == next;
      CacheDropFirst(segs, |chunks|, added, m, f.cache);
      RecordJoins(chunks, f.written, next);
      hide CacheIs;
      m' := DrainSettles(chunks, segs, added, m + 1,
                         Fields(next, f.cache - {f.written}, Record(chunks, f.pos, f.written, next)));
    } else {
      m' := m;
      NotCached(segs, |chunks|, added, m, f.cache);
    }
  }

  lemma TileHere(segs: seq<Segment>, n: nat, i: nat)
    requires Tiles(segs, n) && i < |segs|
    ensures segs[i].first == StartOf(segs, i) <= segs[i].last < n
  {
    assert TileAt(segs, n, i);
  }

  lemma NotCached(segs: seq<Segment>, n: nat, added: set<nat>, m: nat, cache: map<nat, nat>)
    requires Tiles(segs, n) && CacheIs(segs, added, m, cache) && m <= |segs| && m !in added
    ensures StartOf(segs, m) !in cache
  {
    if StartOf(segs, m) in cache {
      hide Tiles;
      var i :| m <= i < |segs| && i in added && segs[i].first == StartOf(segs, m);
      TileHere(segs, n, i);
      StartsGrow(segs, n, m, i);
    }
  }

  /** Adding one more segment keeps the seed settled. */
  lemma AddSettles(chunks: seq<IndexChunk>, segs: seq<Segment>, added: set<nat>, m: nat, f: Fields, j: nat) returns (m': nat)
    requires Tiles(segs, |chunks|) && Settled(chunks, segs, added, m, f)
    requires (forall i :: i in added ==> i < |segs|) && j < |segs| && j !in added
    ensures CacheInside(f.cache, |chunks|) && segs[j].last < |chunks|
    ensures Settled(chunks, segs, added + {j}, m', Added(chunks, f, segs[j]))
  {
    hide CacheIs, Tiles, Record, Drain;
    CacheBounded(segs, |chunks|, added, m, f.cache);
    TileHere(segs, |chunks|, j);
    CacheGrows(segs, |chunks|, added, m, f.cache, j);
    m' := DrainSettles(chunks, segs, added + {j}, m, f.(cache := f.cache[segs[j].first := segs[j].last + 1]));
  }

  lemma CacheGrows(segs: seq<Segment>, n: nat, added: set<nat>, m: nat, cache: map<nat, nat>, j: nat)
    requires Tiles(segs, n) && CacheIs(segs, added, m, cache) && m <= j < |segs|
    ensures CacheIs(segs, added + {j}, m, cache[segs[j].first := segs[j].last + 1])
  {
    hide Tiles;
    var c := cache[segs[j].first := segs[j].last + 1];
    forall i | m <= i < |segs| && i in added + {j}
      ensures segs[i].first in c && c[segs[i].first] == segs[i].last + 1
    {
      if i < j { FirstsDiffer(segs, n, i, j); } else if j < i { FirstsDiffer(segs, n, j, i); }
    }
    forall k | k in c
      ensures exists i :: m <= i < |segs| && i in added + {j} && segs[i].first == k
    {
      if k == segs[j].first { assert j in added + {j}; } else {
        var i :| m <= i < |segs| && i in added && segs[i].first == k;
        assert i in added + {j};
      }
    }
  }

  /** The fields after adding segments in the given order. */
  function AfterAdds(chunks: seq<IndexChunk>, segs: seq<Segment>, order: seq<nat>): Fields
    requires Tiles(segs, |chunks|) && forall k :: 0 <= k < |order| ==> order[k] < |segs|
    requires forall k, l :: 0 <= k < l < |order| ==> order[k] != order[l]
    decreases |order|
  {
    if order == [] then Fields(0, map[], map[]) else
      var before := order[..|order| - 1];
      var f, j := AfterAdds(chunks, segs, before), order[|order| - 1];
      if CacheInside(f.cache, |chunks|) && segs[j].last < |chunks| then Added(chunks, f, segs[j]) else f
  }

  function ToSet(s: seq<nat>): set<nat> { set x | x in s }

  /** For every order of adding distinct segments of a tiling the seed is settled at all times. */
  lemma {:induction false} AnyOrder(chunks: seq<IndexChunk>, segs: seq<Segment>, order: seq<nat>) returns (m: nat)
    requires Tiles(segs, |chunks|) && forall k :: 0 <= k < |order| ==> order[k] < |segs|
    requires forall k, l :: 0 <= k < l < |order| ==> order[k] != order[l]
    ensures Settled(chunks, segs, ToSet(order), m, AfterAdds(chunks, segs, order))
    decreases |order|
  {
    if order == [] {
      m := 0;
    } else {
      var before, j := order[..|order| - 1], order[|order| - 1];
      m := AnyOrder(chunks, segs, before);
      assert ToSet(order) == ToSet(before) + {j};
      hide Settled, Tiles, Drain, Added;
      m := AddSettles(chunks, segs, ToSet(before), m, AfterAdds(chunks, segs, before), j);
    }
  }

  /** Once every segment was added, everything is written and recorded and the cache is empty. */
  lemma AllAdded(chunks: seq<IndexChunk>, segs: seq<Segment>, order: seq<nat>)
    requires Tiles(segs, |chunks|) && StartOf(segs, |segs|) == |chunks|
    requires forall k :: 0 <= k < |order| ==> order[k] < |segs|
    requires forall k, l :: 0 <= k < l < |order| ==> order[k] != order[l]
    requires forall i :: 0 <= i < |segs| ==> i in order
    ensures AfterAdds(chunks, segs, order) == Fields(|chunks|, map[], Record(chunks, map[], 0, |chunks|))
  {
    var m := AnyOrder(chunks, segs, order);
    hide AfterAdds, Record, Tiles;
    assert m == |segs|;
    var f := AfterAdds(chunks, segs, order);
    assert f.cache == map[];
  }

  /** The recorded list of an ID is exactly its positions below n, in ascending order. */
  lemma {:induction false} RecordedPositions(chunks: seq<IndexChunk>, n: nat, id: ChunkID)
    requires n <= |chunks|
    ensures var p := Record(chunks, map[], 0, n);
            && (id in p <==> exists i :: 0 <= i < n && chunks[i].id == id)
            && (id in p ==> p[id] != [] && (forall k :: 0 <= k < |p[id]| ==> p[id][k] < n && chunks[p[id][k]].id == id)
                            && (forall k, l :: 0 <= k < l < |p[id]| ==> p[id][k] < p[id][l])
                            && (forall i :: 0 <= i < n && chunks[i].id == id ==> i in p[id]))
    decreases n
  {
    if n > 0 {
      RecordedPositions(chunks, n - 1, id);
    }
  }
}
