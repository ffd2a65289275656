/**
 The chunker itself: a rolling hash in a circular window, a refilling buffer and the
 inlined hot loop, proved against the cut points of module Chunking.
 */
module ChunkerImpl {
  import opened Boundary
  import opened Chunking
  import opened RollingHash

  /** Contents of a circular window, oldest byte first. */
  function Ring(s: seq<Byte>, i: nat): seq<Byte>
    requires i <= |s|
  {
    s[i..] + s[..i]
  }

  lemma RingStep(s: seq<Byte>, i: nat, x: Byte, i': nat)
    requires i < |s| && i' == (if i + 1 == |s| then 0 else i + 1)
    ensures Ring(s, i)[0] == s[i]
    ensures Ring(s[i := x], i') == Ring(s, i)[1..] + [x]
  {
  }

  lemma NextIndex(i: nat, n: nat)
    requires i < n
    ensures (i + 1) % n == if i + 1 == n then 0 else i + 1
  {
    if i + 1 == n { QuotientUnique(i + 1, n, 1, 0); } else { QuotientUnique(i + 1, n, 0, i + 1); }
  }

  // ---------- the reference hash ----------

  /** The `Hash` type: the simple form of what the chunker inlines. */
  class Hash {
    const table: Table
    const size: nat
    const discriminator: Word
    const window: array<Byte>
    var value: bv32
    var idx: nat

    ghost predicate Valid()
      reads this, window
    {
      window.Length == size > 0 && idx < size && discriminator > 0
    }

    /** The value is the hash of the window's current contents. */
    ghost predicate InStep()
      requires Valid()
      reads this, window
    {
      value == WindowHash(table, Ring(window[..], idx))
    }

    constructor (t: Table, n: nat, d: Word)
      requires n > 0 && d > 0
      ensures Valid() && fresh(window) && table == t && size == n && discriminator == d
      ensures value == 0 && idx == 0
    {
      table, size, discriminator := t, n, d;
      window := new Byte[n](_ => 0);
      value, idx := 0, 0;
    }

    method Initialize(b: seq<Byte>)
      requires Valid() && |b| == size && value == 0 && idx == 0
      modifies this`value, window
      ensures Valid() && InStep() && Ring(window[..], idx) == b
    {
      value := InitialHash(table, b);
      forall i | 0 <= i < size { window[i] := b[i]; }
      assert window[..] == b;
      assert Ring(window[..], 0) == b;
    }

    method Roll(b: Byte)
      requires Valid() && InStep()
      modifies this`value, this`idx, window
      ensures Valid() && InStep()
      ensures Ring(window[..], idx) == old(Ring(window[..], idx))[1..] + [b]
    {
      hide Xor, Rotl1, Rotl, WindowHash;
      ghost var w, s := Ring(window[..], idx), window[..];
      var ob := window[idx];
      window[idx] := b;
      assert window[..] == s[idx := b];
      RingStep(s, idx, b, if idx + 1 == size then 0 else idx + 1);
      HashRoll(table, w, b);
      NextIndex(idx, size);
      idx := (idx + 1) % size;
      value := Xor(Xor(Rotl1(value), Rotl(table[ob], size)), table[b]);
    }

    predicate IsBoundary()
      requires Valid()
      reads this, window
    {
      Boundary.IsBoundary(discriminator, value as int)
    }

    method Reset()
      requires Valid()
      modifies this`value, this`idx
      ensures Valid() && value == 0 && idx == 0
    {
      value, idx := 0, 0;
    }
  }

  /** The loop that seeds the hash with a full window. */
  method InitialHash(t: Table, w: seq<Byte>) returns (h: bv32)
    ensures h == WindowHash(t, w)
  {
    h := 0;
    RotlZero(|w|);
    assert w[..0] == [];
    for i := 0 to |w|
      invariant h == Rotl(WindowHash(t, w[..i]), |w| - i)
    {
      HashSnoc(t, w, i);
      HashInit(WindowHash(t, w[..i]), t[w[i]], |w| - i - 1);
      hide Xor, Rotl1, Rotl, WindowHash;
      h := Xor(h, Rotl(t[w[i]], |w| - i - 1));
    }
    assert w[..|w|] == w;
  }

  lemma {:induction false} RotlZero(k: nat)
    ensures Rotl(0, k) == 0
  {
    if k > 0 { RotlZero(k - 1); }
  }

  // ---------- the stream ----------

  datatype Status = Ok | Eof | Failed

  /** b is what is left of a after dropping n bytes or fewer. */
  predicate Dropped(a: seq<Byte>, b: seq<Byte>, n: nat) {
    |b| <= |a| <= |b| + n && b == a[|a| - |b|..]
  }

  /**
   An io.Reader over a fixed stream: it may fragment the stream in any way, return
   end-of-file with or after the last bytes, make finitely many empty reads, and fail;
   `fails` counts the errors it has returned. It is not to be read after end-of-file.
   */
  class Reader {
    var rest: seq<Byte>
    var idle: nat
    ghost var fails: nat
    ghost var ended: bool

    constructor (data: seq<Byte>, emptyReads: nat)
      ensures rest == data && fails == 0 && !ended
    {
      rest, idle, fails, ended := data, emptyReads, 0, false;
    }

    method Read(limit: nat) returns (b: seq<Byte>, st: Status)
      requires limit > 0 && !ended
      modifies this
      ensures ended <==> st == Eof
      ensures |b| <= limit && old(rest) == b + rest
      ensures st == Eof ==> rest == []
      ensures idle <= old(idle) && (st == Ok ==> |b| > 0 || idle < old(idle))
      ensures fails == old(fails) + if st == Failed then 1 else 0
    {
      var k: nat, withLast: bool := *, *;
      k := Min(k, Min(limit, |rest|));
      b := rest[..k];
      rest := rest[k..];
      st := Ok;
      if * {
        st, fails := Failed, fails + 1;
      } else if rest == [] && (k == 0 || withLast) {
        st, ended := Eof, true;
      } else if k == 0 {
        if idle == 0 {
          b, rest := rest[..1], rest[1..];
        } else {
          idle := idle - 1;
        }
      }
    }

    /** Seeking or discarding forward; past the end there is nothing left to read. It may fail with part of the way done. */
    method Skip(n: nat) returns (failed: bool)
      modifies this`rest, this`fails
      ensures fails == old(fails) + if failed then 1 else 0
      ensures !failed ==> rest == old(rest)[Min(n, |old(rest)|)..]
      ensures failed ==> Dropped(old(rest), rest, n)
    {
      failed := *;
      fails := fails + if failed then 1 else 0;
      var done: int := *;
      var k: nat := if failed && 0 <= done <= n then Min(done, |rest|) else Min(n, |rest|);
      rest := rest[k..];
    }
  }

  // ---------- the chunker ----------

  class Chunker {
    const min: nat
    const max: nat
    const disc: Word
    const table: Table
    const c: Constants
    const r: Reader
    const hWindow: array<Byte>

    var start: nat
    var backing: array<Byte>  // reused across refills; buf is backing[lo..hi]
    var lo: nat
    var hi: nat
    var hitEOF: bool
    var hValue: bv32
    var hIdx: nat

    /** The chunking parameters: the division-free test on the window hashed from scratch. */
    ghost function P(): (p: Params)
      ensures p.min == min && p.max == max
    {
      Params(min, max, w => disc > 0 && FastTest(disc, WindowHash(table, w) as int))
    }

    ghost predicate Sound()
      reads this, r, hWindow, backing
      ensures Sound() ==> lo <= hi <= backing.Length && P().Valid() && backing != hWindow
    {
      && P().Valid() && disc > 0 && c == NewConstants(disc)
      && hWindow.Length == WINDOW && backing != hWindow
      && lo <= hi <= backing.Length <= 10 * max
      && (hitEOF ==> r.rest == []) && hitEOF == r.ended
    }

    /** Between calls the hash is reset as well. */
    ghost predicate Valid()
      reads this, r, hWindow, backing
    {
      Sound() && hValue == 0 && hIdx == 0
    }

    ghost function Buffered(): seq<Byte>
      requires lo <= hi <= backing.Length
      reads this, backing
    {
      backing[lo..hi]
    }

    /** Everything not yet returned: what is buffered, then what is still to be read. */
    ghost function Pending(): seq<Byte>
      requires lo <= hi <= backing.Length
      reads this, r, backing
    {
      Buffered() + r.rest
    }

    constructor (rd: Reader, min: nat, max: nat, disc: Word, table: Table)
      requires WINDOW <= min < max && disc > 0 && !rd.ended
      ensures Valid() && fresh(backing) && fresh(hWindow) && r == rd && start == 0
      ensures this.min == min && this.max == max && this.disc == disc && this.table == table
      ensures Pending() == rd.rest
    {
      this.min, this.max, this.disc, this.table := min, max, disc, table;
      c := NewConstants(disc);
      r := rd;
      hWindow := new Byte[WINDOW](_ => 0);
      backing := new Byte[0];
      start, lo, hi, hitEOF, hValue, hIdx := 0, 0, 0, false, 0, 0;
    }

    /** Refill to 10*max bytes: move the leftover to the front, then read until full, end or error. */
    method FillBuffer() returns (failed: bool)
      requires Valid() && hi - lo < max
      modifies r, backing, this`backing, this`lo, this`hi, this`hitEOF
      ensures Valid() && (backing == old(backing) || fresh(backing))
      ensures Pending() == old(Pending())
      ensures !failed ==> hi - lo >= max || r.rest == []
      ensures if failed then r.fails > old(r.fails) else r.fails == old(r.fails)
    {
      hide NewConstants, P;
      if hitEOF {
        return false;
      }
      MoveToFront();
      var st := Ok;
      while hi < 10 * max && st == Ok
        invariant lo == 0 <= hi <= 10 * max == backing.Length
        invariant backing == old(backing) || fresh(backing)
        invariant Pending() == old(Pending())
        invariant st == Eof ==> r.rest == []
        invariant r.ended <==> st == Eof
        invariant r.fails == old(r.fails) + if st == Failed then 1 else 0
        decreases 10 * max - hi, r.idle, st == Ok
      {
        st := ReadMore();
      }
      hitEOF := st == Eof;
      failed := st == Failed;
    }

    /** Reuse the backing buffer if it is large enough; the copy within it may overlap. */
    method MoveToFront()
      requires Sound() && hi - lo < max
      modifies backing, this`backing, this`lo, this`hi
      ensures lo == 0 <= hi <= 10 * max == backing.Length && hi == old(hi - lo)
      ensures backing == old(backing) || fresh(backing)
      ensures Buffered() == old(Buffered())
    {
      hide NewConstants, P;
      var n := hi - lo;
      ghost var leftover := Buffered();
      if backing.Length < 10 * max {
        var a := new Byte[10 * max](_ => 0);
        forall i | 0 <= i < n { a[i] := backing[lo + i]; }
        backing := a;
      } else {
        forall i | 0 <= i < n { backing[i] := backing[lo + i]; }
      }
      lo, hi := 0, n;
      assert forall k :: 0 <= k < n ==> backing[k] == leftover[k];
      assert Buffered() == leftover;
    }

    /** `c.r.Read(buf[n:])`: one read into the free part of the buffer. */
    method ReadMore() returns (st: Status)
      requires lo <= hi < backing.Length && !r.ended
      modifies r, backing, this`hi
      ensures r.ended <==> st == Eof
      ensures old(hi) <= hi <= backing.Length && Pending() == old(Pending())
      ensures st == Eof ==> r.rest == []
      ensures r.idle <= old(r.idle) && (st == Ok ==> hi > old(hi) || r.idle < old(r.idle))
      ensures r.fails == old(r.fails) + if st == Failed then 1 else 0
    {
      ghost var buffered := Buffered();
      var b;
      b, st := r.Read(backing.Length - hi);
      forall i | 0 <= i < |b| { backing[hi + i] := b[i]; }
      hi := hi + |b|;
      forall k | 0 <= k < hi - lo
        ensures backing[lo + k] == (buffered + b)[k]
      {
        if k >= |buffered| { assert backing[lo + k] == backing[old(hi) + (k - |buffered|)]; }
      }
      assert Buffered() == buffered + b;
    }

    /** The hot loop: roll bytes in from the minimum size on until a boundary or m bytes. */
    method Scan(m: nat) returns (pos: nat)
      requires Valid() && min < m <= hi - lo
      modifies hWindow, this`hValue, this`hIdx
      ensures Sound() && pos == FirstCut(P(), Buffered(), 0, min + 1, m)
      ensures Buffered() == old(Buffered())
    {
      hide NewConstants, Fires, FirstCut, WindowHash, FastTest, Ring;
      ghost var b := Buffered();
      var value := SeedWindow(b);
      var idx: nat := 0;
      pos := min;
      while true
        invariant min <= pos < m && idx < WINDOW
        invariant backing[lo..hi] == b
        invariant Ring(hWindow[..], idx) == b[pos - WINDOW..pos]
        invariant value == WindowHash(table, b[pos - WINDOW..pos])
        invariant FirstCut(P(), b, 0, min + 1, m) == FirstCut(P(), b, 0, pos + 1, m)
        decreases m - pos
      {
        value, idx := RollIn(b, value, idx, pos);
        pos := pos + 1;
        if pos >= m {
          break;
        }
        ScanStep(b, value, pos, m);
        if Fires(c, value as int) {
          break;
        }
      }
      hValue, hIdx := value, idx;
    }

    /** Seed the window with the bytes just before the minimum size. */
    method SeedWindow(ghost b: seq<Byte>) returns (value: bv32)
      requires hWindow.Length == WINDOW <= min <= |b| && backing != hWindow
      requires lo <= hi <= backing.Length && b == backing[lo..hi]
      modifies hWindow
      ensures backing[lo..hi] == b
      ensures Ring(hWindow[..], 0) == b[min - WINDOW..min]
      ensures value == WindowHash(table, b[min - WINDOW..min])
    {
      var w := backing[lo..hi][min - WINDOW..min];
      value := InitialHash(table, w);
      forall i | 0 <= i < WINDOW { hWindow[i] := w[i]; }
      assert hWindow[..] == w;
      assert Ring(hWindow[..], 0) == w;
    }

    lemma ScanStep(b: seq<Byte>, value: bv32, pos: nat, m: nat)
      requires P().Valid() && disc > 0 && c == NewConstants(disc)
      requires min < pos < m <= |b| && value == WindowHash(table, b[pos - WINDOW..pos])
      ensures FirstCut(P(), b, 0, pos, m) ==
              if Fires(c, value as int) then pos else FirstCut(P(), b, 0, pos + 1, m)
    {
      hide NewConstants, Fires, WindowHash;
      assert P().test(b[pos - WINDOW..pos]) == FastTest(disc, value as int);
    }

    /** Roll one byte into the window: the body of the hot loop up to the boundary test. */
    method RollIn(ghost b: seq<Byte>, value: bv32, idx: nat, pos: nat) returns (value': bv32, idx': nat)
      requires hWindow.Length == WINDOW && backing != hWindow && idx < WINDOW
      requires lo <= hi <= backing.Length && b == backing[lo..hi] && WINDOW <= pos < |b|
      requires Ring(hWindow[..], idx) == b[pos - WINDOW..pos]
      requires value == WindowHash(table, b[pos - WINDOW..pos])
      modifies hWindow
      ensures idx' < WINDOW && backing[lo..hi] == b
      ensures Ring(hWindow[..], idx') == b[pos + 1 - WINDOW..pos + 1]
      ensures value' == WindowHash(table, b[pos + 1 - WINDOW..pos + 1])
    {
      ghost var w, s := b[pos - WINDOW..pos], hWindow[..];
      var in_ := backing[lo + pos];
      var out := hWindow[idx];
      hWindow[idx] := in_;
      assert hWindow[..] == s[idx := in_];
      idx' := idx + 1;
      if idx' >= WINDOW {
        idx' := 0;
      }
      RingStep(s, idx, in_, idx');
      HashRoll(table, w, in_);
      assert in_ == b[pos];
      Slide(b, pos);
      hide Xor, Rotl1, Rotl, WindowHash;
      value' := Xor(Xor(Rotl1(value), Rotl(table[out], WINDOW)), table[in_]);
    }

    method Split(i: nat) returns (at: nat, b: seq<Byte>)
      requires Sound() && lo + i <= hi
      modifies this`lo, this`start, this`hValue, this`hIdx
      ensures Valid() && at == old(start) && start == at + i && lo == old(lo) + i
      ensures |b| == i && old(Pending()) == b + Pending()
    {
      hide NewConstants, P;
      at := start;
      b := backing[lo..lo + i];
      lo := lo + i;
      start := start + i;
      hIdx, hValue := 0, 0;
    }

    /**
     The next chunk is exactly the next cut of everything still pending, whatever the
     reader's fragmentation; an empty chunk means the end. On a read error the bytes
     read so far are handed back and none is lost.
     */
    method Next() returns (at: nat, b: seq<Byte>, failed: bool)
      requires Valid()
      modifies this, r, backing, hWindow
      ensures Valid() && (backing == old(backing) || fresh(backing))
      ensures at == old(start) && start == at + |b|
      ensures old(Pending()) == b + Pending()
      ensures !failed ==> |b| == Cut(P(), old(Pending()), 0)
      ensures if failed then r.fails > old(r.fails) else r.fails == old(r.fails)
    {
      hide NewConstants, FastTest, P, Cut, FirstCut, Sound;
      failed := false;
      if hi - lo < max {
        failed := FillBuffer();
        if failed {
          at, b := Split(hi - lo);
          return;
        }
      }
      at, b := CutBuffer();
    }

    /** The chunk at the start of the buffer, which holds max bytes or all that is left. */
    method CutBuffer() returns (at: nat, b: seq<Byte>)
      requires Valid() && (hi - lo >= max || r.rest == [])
      modifies this, hWindow
      ensures Valid() && backing == old(backing)
      ensures at == old(start) && start == at + |b|
      ensures old(Pending()) == b + Pending() && |b| == Cut(P(), old(Pending()), 0)
    {
      hide NewConstants, FastTest, P, Cut, FirstCut, Sound;
      CutOfBuffer(P(), Buffered(), Pending());
      if hi - lo <= min {
        at, b := Split(hi - lo);
        return;
      }
      var pos := Scan(Min(hi - lo, max));
      at, b := Split(pos);
    }

    /** Skip n bytes as if the stream started at the current position plus n. */
    method Advance(n: nat) returns (failed: bool)
      requires Valid()
      modifies r, this`start, this`lo, this`hi
      ensures Valid() && start == old(start) + n
      ensures !failed ==> Pending() == old(Pending())[Min(n, |old(Pending())|)..]
      ensures if failed then r.fails > old(r.fails) else r.fails == old(r.fails)
      ensures failed ==> n > old(hi - lo) && Dropped(old(Pending()), Pending(), n)
    {
      hide NewConstants, P;
      start := start + n;
      if n <= hi - lo {
        DropBuffered(n);
        return false;
      }
      failed := DropPastBuffer(n);
    }

    method DropBuffered(n: nat)
      requires Valid() && n <= hi - lo
      modifies this`lo
      ensures Valid() && n <= |old(Pending())| && Pending() == old(Pending())[n..]
    {
      hide NewConstants, P;
      ghost var buf := Buffered();
      DropInside(buf, r.rest, n);
      lo := lo + n;
      assert Buffered() == buf[n..];
    }

    /** The buffer is given up and the rest of the way is left to the reader. */
    method DropPastBuffer(n: nat) returns (failed: bool)
      requires Valid() && n > hi - lo
      modifies r, this`lo
      ensures Valid() && (if failed then r.fails > old(r.fails) else r.fails == old(r.fails))
      ensures !failed ==> Pending() == old(Pending())[Min(n, |old(Pending())|)..]
      ensures failed ==> Dropped(old(Pending()), Pending(), n)
    {
      hide NewConstants, P;
      ghost var buf, rest := Buffered(), r.rest;
      failed := r.Skip(n - (hi - lo));
      lo := hi;
      assert Buffered() == [] && Pending() == r.rest;
      hide Sound;
      if failed {
        DropPast(buf, rest, |rest| - |r.rest|);
      } else {
        DropPast(buf, rest, Min(n - |buf|, |rest|));
      }
    }
  }

  lemma Slide(b: seq<Byte>, pos: nat)
    requires WINDOW <= pos < |b|
    ensures b[pos - WINDOW..pos][1..] + [b[pos]] == b[pos + 1 - WINDOW..pos + 1]
  {
  }

  lemma DropInside(a: seq<Byte>, b: seq<Byte>, n: nat)
    requires n <= |a|
    ensures (a + b)[n..] == a[n..] + b
  {
  }

  lemma DropPast(a: seq<Byte>, b: seq<Byte>, k: nat)
    requires k <= |b|
    ensures (a + b)[|a| + k..] == b[k..]
  {
  }

  /**
   Draining a chunker yields the chunk list of the stream it was given: contiguous
   chunks that concatenate to the stream, each cut at the first boundary. If the
   reader fails, what was produced before is a prefix of that list.
   */
  method ChunkAll(c: Chunker, digest: seq<Byte> -> ChunkID) returns (out: seq<IndexChunk>, failed: bool)
    requires c.Valid() && c.start == 0
    modifies c, c.r, c.backing, c.hWindow
    ensures !failed ==> out == Stream(c.P(), old(c.Pending()), digest).Chunks(0)
    ensures failed ==> out <= Stream(c.P(), old(c.Pending()), digest).Chunks(0)
    ensures failed <==> c.r.fails > old(c.r.fails)
  {
    ghost var s := Stream(c.P(), c.Pending(), digest);
    hide Chunker.Valid, Chunker.Pending, Chunker.P, Stream.Chunks, Stream.IsRun;
    RunEmpty(s);
    out := [];
    var more := true;
    while more
      invariant c.Valid() && (c.backing == old(c.backing) || fresh(c.backing))
      invariant c.P() == s.p && Produced(s, out, c) && c.r.fails == old(c.r.fails)
      invariant !more ==> c.start == |s.data|
      decreases |s.data| - c.start, more
    {
      out, more, failed := EmitNext(c, s, digest, out);
      if failed {
        s.RunIsPrefix(out, 0);
        return;
      }
    }
    failed := false;
    s.RunIsPrefix(out, 0);
  }

  /** `out` is the run of chunks that leads up to what the chunker still has pending. */
  ghost predicate Produced(s: Stream, out: seq<IndexChunk>, c: Chunker)
    requires c.Valid()
    reads c, c.r, c.backing, c.hWindow
  {
    && s.Valid() && s.IsRun(out, 0) && RunEnd(out, 0) == c.start <= |s.data|
    && c.Pending() == s.data[c.start..]
  }

  method EmitNext(c: Chunker, ghost s: Stream, digest: seq<Byte> -> ChunkID, out: seq<IndexChunk>)
    returns (out': seq<IndexChunk>, more: bool, failed: bool)
    requires c.Valid() && c.P() == s.p && digest == s.digest && Produced(s, out, c)
    modifies c, c.r, c.backing, c.hWindow
    ensures c.Valid() && (c.backing == old(c.backing) || fresh(c.backing))
    ensures failed ==> out' == out
    ensures if failed then c.r.fails > old(c.r.fails) else c.r.fails == old(c.r.fails)
    ensures !failed ==> Produced(s, out', c)
    ensures !failed ==> if more then c.start > old(c.start) else c.start == |s.data|
  {
    hide Chunker.Sound, Chunker.Pending, Chunker.P, Cut, FirstCut, Stream.IsRun, RunEnd;
    more, out' := false, out;
    var at, b;
    at, b, failed := c.Next();
    if failed {
      return;
    }
    StreamStep(s, out, at, b, c.Pending());
    if |b| > 0 {
      out', more := out + [IndexChunk(digest(b), at, |b|)], true;
    }
  }

  lemma RunEmpty(s: Stream)
    requires s.Valid()
    ensures s.IsRun([], 0) && RunEnd([], 0) == 0 && s.Chunks(|s.data|) == []
  {
  }

  lemma HeadAndRest(data: seq<Byte>, at: nat, b: seq<Byte>, rest: seq<Byte>)
    requires at <= |data| && data[at..] == b + rest
    ensures at + |b| <= |data| && b == data[at..at + |b|] && rest == data[at + |b|..]
  {
    assert |data| - at == |b| + |rest|;
    assert data[at..][..|b|] == b && data[at..][|b|..] == rest;
  }

  lemma StreamStep(s: Stream, out: seq<IndexChunk>, at: nat, b: seq<Byte>, rest: seq<Byte>)
    requires s.Valid() && s.IsRun(out, 0) && RunEnd(out, 0) == at <= |s.data|
    requires s.data[at..] == b + rest && |b| == Cut(s.p, s.data[at..], 0)
    ensures |b| == 0 ==> at == |s.data|
    ensures |b| > 0 ==> s.IsRun(out + [IndexChunk(s.digest(b), at, |b|)], 0)
    ensures RunEnd(out + [IndexChunk(s.digest(b), at, |b|)], 0) == at + |b|
    ensures at + |b| <= |s.data| && rest == s.data[at + |b|..]
  {
    hide Cut, FirstCut, Stream.IsRun;
    CutShift(s.p, s.data, at);
    HeadAndRest(s.data, at, b, rest);
    if |b| > 0 {
      s.RunSnoc(out, 0, IndexChunk(s.digest(b), at, |b|));
    }
  }

  /** A buffer that holds max bytes, or everything there is, decides the next cut. */
  lemma CutOfBuffer(p: Params, buf: seq<Byte>, all: seq<Byte>)
    requires p.Valid() && buf <= all && (|buf| >= p.max || buf == all)
    ensures Cut(p, all, 0) ==
            if |buf| <= p.min then |buf| else FirstCut(p, buf, 0, p.min + 1, Min(|buf|, p.max))
  {
    if |buf| > p.min {
      FirstCutPrefix(p, buf, all, p.min + 1, Min(|buf|, p.max));
    }
  }

  lemma {:induction false} FirstCutPrefix(p: Params, buf: seq<Byte>, all: seq<Byte>, k: nat, m: nat)
    requires p.Valid() && p.min < k <= m <= |buf| && buf <= all
    ensures FirstCut(p, buf, 0, k, m) == FirstCut(p, all, 0, k, m)
    decreases m - k
  {
    if k < m {
      assert buf[k - WINDOW..k] == all[k - WINDOW..k];
      FirstCutPrefix(p, buf, all, k + 1, m);
    }
  }
}
