/**
 Block-aligned cloning of seed ranges into the target: the parts around the whole blocks
 are copied, the whole blocks are cloned. Offsets and lengths are 64-bit and wrap.
 */
module Cloning {
  import opened Prelude
  import opened Chunking
  import opened Boundary

  /** The content of a file after writing b at off; a gap beyond the end reads as zeros, and writing nothing changes nothing. */
  function Overlay(f: seq<Byte>, off: nat, b: seq<Byte>): (r: seq<Byte>)
    ensures off + |b| <= |f| ==> |r| == |f|
  {
    if b == [] then f
    else if off > |f| then f + ZeroBytes(off - |f|) + b
    else if off + |b| <= |f| then f[..off] + b + f[off + |b|..]
    else f[..off] + b
  }

  /** Writing piece after piece, from wherever, is one write. */
  lemma OverlayAppend(f: seq<Byte>, off: nat, a: seq<Byte>, b: seq<Byte>)
    ensures Overlay(Overlay(f, off, a), off + |a|, b) == Overlay(f, off, a + b)
  {
    hide Overlay;
    OverlayEmpty(f, off);
    OverlayEmpty(Overlay(f, off, a), off + |a|);
    if a == [] {
      assert a + b == b;
    } else if b == [] {
      assert a + b == a;
    } else if off <= |f| {
      AppendInside(f, off, a, b);
    } else {
      OverlayPadded(f, off, a);
      OverlayPadded(f, off, a + b);
      AppendInside(f + ZeroBytes(off - |f|), off, a, b);
    }
  }

  lemma OverlayPadded(f: seq<Byte>, off: nat, b: seq<Byte>)
    requires off > |f| && b != []
    ensures Overlay(f, off, b) == Overlay(f + ZeroBytes(off - |f|), off, b)
  {
  }

  lemma AppendInside(f: seq<Byte>, off: nat, a: seq<Byte>, b: seq<Byte>)
    requires off <= |f|
    ensures Overlay(Overlay(f, off, a), off + |a|, b) == Overlay(f, off, a + b)
  {
    hide Overlay;
    var d1, whole := Overlay(f, off, a), Overlay(f, off, a + b);
    OverlaySize(f, off, a);
    var d2 := Overlay(d1, off + |a|, b);
    OverlaySize(d1, off + |a|, b);
    OverlaySize(f, off, a + b);
    forall i: nat | i < |d2|
      ensures d2[i] == whole[i]
    {
      OverlayAt(d1, off + |a|, b, i);
      OverlayAt(f, off, a + b, i);
      if i < |d1| { OverlayAt(f, off, a, i); }
    }
  }

  lemma OverlayAt(f: seq<Byte>, off: nat, b: seq<Byte>, i: nat)
    requires off <= |f| && i < |Overlay(f, off, b)|
    ensures off <= i < off + |b| || i < |f|
    ensures Overlay(f, off, b)[i] == if off <= i < off + |b| then b[i - off] else f[i]
  {
  }

  lemma OverlaySize(f: seq<Byte>, off: nat, b: seq<Byte>)
    requires off <= |f|
    ensures |Overlay(f, off, b)| == if off + |b| <= |f| then |f| else off + |b|
  {
  }

  /** A file, and whether the kernel clones blocks into it. */
  class OsFile {
    var data: seq<Byte>
    const accepts: bool

    constructor (d: seq<Byte>, accepts: bool)
      ensures data == d && this.accepts == accepts
    {
      data, this.accepts := d, accepts;
    }
  }

  /** What a reader limited to `length` bytes delivers from `off` on. */
  function Limited(src: seq<Byte>, off: nat, length: nat): seq<Byte> {
    if off > |src| then [] else src[off..Min(off + length, |src|)]
  }

  const COPY_BUFFER := 64 * 1024

  /** fileSeedSegment.copy: piece by piece through a fixed buffer, each read as short as it likes, up to the end of the source. */
  method CopyRange(dst: OsFile, src: seq<Byte>, srcOffset: nat, length: nat, dstOffset: nat) returns (copied: nat)
    modifies dst
    ensures dst.data == Overlay(old(dst.data), dstOffset, Limited(src, srcOffset, length))
    ensures copied == |Limited(src, srcOffset, length)|
  {
    hide Overlay;
    copied := 0;
    ghost var all := Limited(src, srcOffset, length);
    OverlayEmpty(dst.data, dstOffset);
    while true
      invariant copied <= |all| && copied <= length
      invariant dst.data == Overlay(old(dst.data), dstOffset, all[..copied])
      decreases |all| - copied
    {
      var k: int := *;
      k := if 0 < k < COPY_BUFFER then k else COPY_BUFFER;
      var b := Limited(src, srcOffset + copied, Min(k, length - copied));
      LimitedPiece(src, srcOffset, length, copied, k);
      if b == [] {
        break;
      }
      OverlayAppend(old(dst.data), dstOffset, all[..copied], b);
      assert all[..copied] + b == all[..copied + |b|];
      dst.data := Overlay(dst.data, dstOffset + copied, b);
      copied := copied + |b|;
    }
    assert all[..copied] == all;
  }

  lemma OverlayEmpty(f: seq<Byte>, off: nat)
    ensures Overlay(f, off, []) == f
  {
  }

  /** A read of up to k bytes gives the next ones, and none only at the end. */
  lemma LimitedPiece(src: seq<Byte>, off: nat, length: nat, at: nat, k: nat)
    requires k > 0 && at <= |Limited(src, off, length)|
    ensures at <= length && at + |Limited(src, off + at, Min(k, length - at))| <= |Limited(src, off, length)|
    ensures var b := Limited(src, off + at, Min(k, length - at));
            b == Limited(src, off, length)[at..at + |b|] && (b == [] ==> at == |Limited(src, off, length)|)
  {
    if off <= |src| {
      var all, b := Limited(src, off, length), Limited(src, off + at, Min(k, length - at));
      assert b == src[off + at..off + at + |b|] && all == src[off..off + |all|];
      assert all[at..at + |b|] == src[off + at..off + at + |b|];
    }
  }

  /** What FICLONERANGE clones: length 0 means up to the end of the source. */
  function CloneLength(src: seq<Byte>, srcOffset: nat, length: nat): nat {
    if length == 0 && srcOffset <= |src| then |src| - srcOffset else length
  }

  /** The reflink call: ranges beyond the end of the source are refused. */
  method CloneRange(dst: OsFile, src: seq<Byte>, srcOffset: nat, length: nat, dstOffset: nat) returns (ok: bool)
    modifies dst
    ensures ok <==> dst.accepts && srcOffset + CloneLength(src, srcOffset, length) <= |src|
    ensures ok ==> dst.data == Overlay(old(dst.data), dstOffset, src[srcOffset..srcOffset + CloneLength(src, srcOffset, length)])
    ensures !ok ==> dst.data == old(dst.data)
  {
    hide Overlay;
    var n := CloneLength(src, srcOffset, length);
    ok := dst.accepts && srcOffset + n <= |src|;
    if ok {
      dst.data := Overlay(dst.data, dstOffset, src[srcOffset..srcOffset + n]);
    }
  }

  function AlignUp(off: nat, bs: nat): nat
    requires bs > 0
  {
    MulSign(bs, off / bs + 1);
    (off / bs + 1) * bs
  }

  function AlignDown(off: nat, bs: nat): nat
    requires bs > 0
  {
    MulSign(bs, off / bs);
    off / bs * bs
  }

  /** How many block starts lie above `off` and not above off + length. */
  function Crossed(off: nat, length: nat, bs: nat): nat
    requires bs > 0
  {
    DivMonotone(off, length, bs);
    (off + length) / bs - off / bs
  }

  lemma AlignFacts(off: nat, bs: nat)
    requires bs > 0
    ensures AlignDown(off, bs) <= off < AlignUp(off, bs) == AlignDown(off, bs) + bs
    ensures AlignDown(off, bs) == off - off % bs
  {
    var q := off / bs;
    assert off == bs * q + off % bs;
    assert (q + 1) * bs == q * bs + bs;
  }

  /** Whole blocks lie strictly inside the range exactly if it reaches two block starts further. */
  lemma WholeBlocks(off: nat, length: nat, bs: nat)
    requires bs > 0
    ensures AlignUp(off, bs) < AlignDown(off + length, bs) <==> Crossed(off, length, bs) >= 2
    ensures AlignUp(off, bs) <= AlignDown(off + length, bs) <==> Crossed(off, length, bs) >= 1
    ensures length >= 2 * bs ==> Crossed(off, length, bs) >= 2
  {
    var p, q := off / bs, (off + length) / bs;
    BlockOrder(p + 1, q, bs);
    if length >= 2 * bs {
      AlignFacts(off, bs);
      AlignFacts(off + length, bs);
    }
  }

  lemma BlockOrder(p: int, q: int, bs: int)
    requires bs > 0
    ensures p * bs < q * bs <==> p < q
    ensures p * bs <= q * bs <==> p <= q
  {
    MulSign(bs, q - p);
    assert q * bs - p * bs == bs * (q - p);
  }

  /** The kernel can be asked for the blocks: the range crosses a block start, and they are inside a source of this size. */
  predicate Clonable(size: nat, so: nat, n: nat, bs: nat)
    requires bs > 0
  {
    if Crossed(so, n, bs) >= 2 then AlignDown(so + n, bs) <= size else Crossed(so, n, bs) == 1 && AlignUp(so, bs) <= size
  }

  /** The target after a clone: with one block start crossed, everything from there to the end of the source follows. */
  function AfterClone(d: seq<Byte>, src: seq<Byte>, so: nat, n: nat, dof: nat, bs: nat): seq<Byte>
    requires bs > 0 && Clonable(|src|, so, n, bs)
  {
    var copied := Overlay(d, dof, Limited(src, so, n));
    if Crossed(so, n, bs) >= 2 then copied else Overlay(copied, AlignUp(dof, bs), src[AlignUp(so, bs)..])
  }

  /**
   fileSeedSegment.clone. Success needs a block start in the range. With two or more the range is
   written as far as the source goes, and the counts add up to that; with one, a length of zero
   reaches the kernel; with none the length wraps and the call fails.
   */
  method Clone(dst: OsFile, src: seq<Byte>, srcOffset: nat, length: nat, dstOffset: nat, bs: nat)
    returns (copied: nat, cloned: nat, ok: bool)
    requires bs > 0 && dstOffset + length <= |dst.data|
    requires |src| + bs < U64 && srcOffset + length + bs < U64 && |dst.data| + bs < U64
    modifies dst
    ensures srcOffset % bs != dstOffset % bs ==> !ok && dst.data == old(dst.data)
    ensures ok <==> dst.accepts && srcOffset % bs == dstOffset % bs && Clonable(|src|, srcOffset, length, bs)
    ensures ok ==> dst.data == AfterClone(old(dst.data), src, srcOffset, length, dstOffset, bs)
    ensures ok ==> copied + cloned == |Limited(src, srcOffset, length)|
    ensures ok ==> (cloned > 0 <==> Crossed(srcOffset, length, bs) >= 2) && cloned % bs == 0
  {
    hide Overlay, Limited, CloneLength, AlignUp, AlignDown, Crossed;
    if srcOffset % bs != dstOffset % bs {
      return 0, 0, false;
    }
    var srcAlignStart, srcAlignEnd, dstAlignStart, alignLength, dstAlignEnd := CloneOffsets(srcOffset, length, dstOffset, bs);
    ghost var d0 := dst.data;
    var c1 := CopyRange(dst, src, srcOffset, srcAlignStart - srcOffset, dstOffset);
    var c2 := CopyRange(dst, src, srcAlignEnd, srcOffset + length - srcAlignEnd, dstAlignEnd);
    copied := c1 + c2;
    cloned := alignLength;
    ok := CloneRange(dst, src, srcAlignStart, alignLength, dstAlignStart);
    CloneLengthIs(src, srcAlignStart, alignLength);
    if ok && srcAlignStart <= srcAlignEnd {
      Cloned(d0, src, srcOffset, length, dstOffset, srcAlignStart, srcAlignEnd);
    }
  }

  lemma Cloned(d: seq<Byte>, src: seq<Byte>, so: nat, n: nat, dof: nat, a: nat, z: nat)
    requires so <= a <= z <= so + n && z <= |src| && dof + n <= |d|
    ensures var head, tail, all := Limited(src, so, a - so), Limited(src, z, so + n - z), Limited(src, so, n);
            var copies := Overlay(Overlay(d, dof, head), dof + (z - so), tail);
            var k := CloneLength(src, a, z - a);
            && |head| + |tail| + (z - a) == |all| && a + k <= |src|
            && (a < z ==> Overlay(copies, dof + (a - so), src[a..a + k]) == Overlay(d, dof, all))
            && (a == z ==> copies == Overlay(d, dof, all) && src[a..a + k] == src[a..])
  {
    hide Overlay;
    var end := Min(so + n, |src|);
    LimitedIs(src, so, a);
    assert Limited(src, so, n) == src[so..end] && Limited(src, z, so + n - z) == src[z..end];
    Tiled(d, src, so, end - so, dof, a, z);
  }

  // ---------- when a clone is exact ----------

  /** Whatever the source and the target hold, a clone that succeeds writes the range and nothing else. */
  ghost predicate AlwaysExact(size: nat, room: nat, so: nat, n: nat, dof: nat, bs: nat)
    requires bs > 0 && Clonable(size, so, n, bs)
  {
    forall d: seq<Byte>, src: seq<Byte> :: |d| == room && |src| == size ==> IsExact(d, src, so, n, dof, bs)
  }

  ghost predicate IsExact(d: seq<Byte>, src: seq<Byte>, so: nat, n: nat, dof: nat, bs: nat)
    requires bs > 0 && Clonable(|src|, so, n, bs)
  {
    so + n <= |src| && AfterClone(d, src, so, n, dof, bs) == Overlay(d, dof, src[so..so + n])
  }

  /** A clone is exact exactly if the source has the range and either two block starts are crossed or the range is the end of the source. */
  lemma CloneIsExactIff(size: nat, room: nat, so: nat, n: nat, dof: nat, bs: nat)
    requires bs > 0 && so % bs == dof % bs && dof + n <= room && Clonable(size, so, n, bs)
    ensures AlwaysExact(size, room, so, n, dof, bs) <==> so + n <= size && (Crossed(so, n, bs) >= 2 || so + n == size)
  {
    hide Overlay, AfterClone, Crossed, Limited, AlignUp, AlignDown;
    if so + n <= size && (Crossed(so, n, bs) >= 2 || so + n == size) {
      forall d: seq<Byte>, src: seq<Byte> | |d| == room && |src| == size
        ensures IsExact(d, src, so, n, dof, bs)
      {
        ExactClone(d, src, so, n, dof, bs);
      }
    } else {
      var d, src := ZeroBytes(room), seq(size, _ => 1);
      if so + n < size { SpillingClone(d, src, so, n, dof, bs); }
      assert !IsExact(d, src, so, n, dof, bs);
    }
  }

  lemma ExactClone(d: seq<Byte>, src: seq<Byte>, so: nat, n: nat, dof: nat, bs: nat)
    requires bs > 0 && so % bs == dof % bs && dof + n <= |d| && Clonable(|src|, so, n, bs)
    requires so + n <= |src| && (Crossed(so, n, bs) >= 2 || so + n == |src|)
    ensures IsExact(d, src, so, n, dof, bs)
  {
    hide Overlay, Limited, Crossed, AlignUp, AlignDown;
    LimitedIs(src, so, so + n);
    if Crossed(so, n, bs) == 1 {
      CloneNumbers(so, n, dof, bs);
      Again(d, src[so..so + n], dof, AlignUp(so, bs) - so);
      assert src[so..so + n][AlignUp(so, bs) - so..] == src[AlignUp(so, bs)..];
    }
  }

  /** Writing the end of a piece a second time changes nothing. */
  lemma Again(d: seq<Byte>, b: seq<Byte>, off: nat, k: nat)
    requires k <= |b| && off + |b| <= |d|
    ensures Overlay(Overlay(d, off, b), off + k, b[k..]) == Overlay(d, off, b)
  {
    hide Overlay;
    var d1 := Overlay(d, off, b);
    var d2 := Overlay(d1, off + k, b[k..]);
    forall i: nat | i < |d|
      ensures d2[i] == d1[i]
    {
      OverlayAt(d, off, b, i);
      OverlayAt(d1, off + k, b[k..], i);
    }
  }

  /** Otherwise the byte of the source after the range arrives in the target as well. */
  lemma SpillingClone(d: seq<Byte>, src: seq<Byte>, so: nat, n: nat, dof: nat, bs: nat)
    requires bs > 0 && so % bs == dof % bs && dof + n <= |d| && Clonable(|src|, so, n, bs)
    requires d == ZeroBytes(|d|) && src == seq(|src|, _ => 1) && Crossed(so, n, bs) == 1 && so + n < |src|
    ensures AfterClone(d, src, so, n, dof, bs) != Overlay(d, dof, src[so..so + n])
  {
    hide Overlay, Limited, Crossed, AlignUp, AlignDown, ZeroBytes;
    LimitedIs(src, so, so + n);
    CloneNumbers(so, n, dof, bs);
    var a := AlignUp(so, bs);
    var d1 := Overlay(d, dof, src[so..so + n]);
    var d2 := Overlay(d1, AlignUp(dof, bs), src[a..]);
    OverlaySize(d1, AlignUp(dof, bs), src[a..]);
    if |d2| == |d1| {
      OverlayAt(d, dof, src[so..so + n], dof + n);
      OverlayAt(d1, AlignUp(dof, bs), src[a..], dof + n);
      assert d1[dof + n] == 0 && d2[dof + n] == 1;
    }
  }

  /** Four bytes that cross one block start: the clone goes on to the end of the source. */
  lemma CloneCopiesTooMuch()
    ensures var d, src := ZeroBytes(12), [1, 2, 3, 4, 5, 6, 7, 8];
            && Clonable(|src|, 2, 4, 4)
            && AfterClone(d, src, 2, 4, 2, 4) == [0, 0, 3, 4, 5, 6, 7, 8, 0, 0, 0, 0]
            && Overlay(d, 2, src[2..6]) == [0, 0, 3, 4, 5, 6, 0, 0, 0, 0, 0, 0]
  {
    var d, src: seq<Byte> := ZeroBytes(12), [1, 2, 3, 4, 5, 6, 7, 8];
    assert AlignUp(2, 4) == 4 && Crossed(2, 4, 4) == 1;
    assert Limited(src, 2, 4) == [3, 4, 5, 6] && src[2..6] == [3, 4, 5, 6] && src[4..] == [5, 6, 7, 8];
    var d1 := Overlay(d, 2, [3, 4, 5, 6]);
    assert d1 == [0, 0, 3, 4, 5, 6, 0, 0, 0, 0, 0, 0];
    assert Overlay(d1, 4, [5, 6, 7, 8]) == [0, 0, 3, 4, 5, 6, 7, 8, 0, 0, 0, 0];
  }

  lemma CloneLengthIs(src: seq<Byte>, off: nat, n: nat)
    ensures n > 0 ==> CloneLength(src, off, n) == n
    ensures off <= |src| ==> CloneLength(src, off, 0) == |src| - off
    ensures off > |src| ==> off + CloneLength(src, off, n) > |src|
  {
  }

  /** The offsets `clone` works with, in 64-bit arithmetic. */
  method CloneOffsets(srcOffset: nat, length: nat, dstOffset: nat, bs: nat)
    returns (srcAlignStart: nat, srcAlignEnd: nat, dstAlignStart: nat, alignLength: nat, dstAlignEnd: nat)
    requires bs > 0 && srcOffset % bs == dstOffset % bs
    requires srcOffset + length + bs < U64 && dstOffset + length + bs < U64
    ensures srcAlignStart == AlignUp(srcOffset, bs) && srcAlignEnd == AlignDown(srcOffset + length, bs) && dstAlignStart == AlignUp(dstOffset, bs)
    ensures srcOffset < srcAlignStart && srcAlignEnd <= srcOffset + length
    ensures dstAlignStart - dstOffset == srcAlignStart - srcOffset
    ensures srcAlignStart <= srcAlignEnd <==> Crossed(srcOffset, length, bs) >= 1
    ensures srcAlignStart <= srcAlignEnd ==> alignLength == srcAlignEnd - srcAlignStart && dstAlignEnd == dstOffset + (srcAlignEnd - srcOffset)
    ensures alignLength == 0 <==> Crossed(srcOffset, length, bs) == 1
    ensures srcAlignStart <= srcAlignEnd ==> alignLength % bs == 0
    ensures Crossed(srcOffset, length, bs) == 0 ==> alignLength == U64 - bs
  {
    CloneNumbers(srcOffset, length, dstOffset, bs);
    srcAlignStart, srcAlignEnd, dstAlignStart := AlignUp(srcOffset, bs), AlignDown(srcOffset + length, bs), AlignUp(dstOffset, bs);
    hide AlignUp, AlignDown;
    Wrapped(srcAlignEnd - srcAlignStart);
    alignLength := (srcAlignEnd - srcAlignStart) % U64;
    Wrapped(dstAlignStart + alignLength);
    dstAlignEnd := (dstAlignStart + alignLength) % U64;
  }

  lemma DivMonotone(off: nat, n: nat, bs: nat)
    requires bs > 0
    ensures (off + n) / bs >= off / bs
  {
    var p, q := off / bs, (off + n) / bs;
    assert off == bs * p + off % bs && off + n == bs * q + (off + n) % bs;
    BlockOrder(q + 1, p, bs);
  }

  lemma Wrapped(n: int)
    ensures 0 <= n % U64
    ensures 0 <= n < U64 ==> n % U64 == n
    ensures -U64 <= n < 0 ==> n % U64 == n + U64
  {
  }

  lemma LimitedIs(src: seq<Byte>, a: nat, z: nat)
    requires a <= z <= |src|
    ensures Limited(src, a, z - a) == src[a..z]
  {
  }

  /** The offsets of the clone: source and target are shifted alike, and the middle has whole blocks. */
  lemma CloneNumbers(srcOffset: nat, length: nat, dstOffset: nat, bs: nat)
    requires bs > 0 && srcOffset % bs == dstOffset % bs
    ensures var a, z := AlignUp(srcOffset, bs), AlignDown(srcOffset + length, bs);
            && srcOffset < a <= srcOffset + bs && z <= srcOffset + length && AlignUp(dstOffset, bs) - dstOffset == a - srcOffset
            && (a < z <==> Crossed(srcOffset, length, bs) >= 2)
            && (a <= z <==> Crossed(srcOffset, length, bs) >= 1)
            && (a <= z ==> (z - a) % bs == 0)
            && (Crossed(srcOffset, length, bs) == 0 ==> a - z == bs)
  {
    AlignFacts(srcOffset, bs);
    AlignFacts(dstOffset, bs);
    AlignFacts(srcOffset + length, bs);
    WholeBlocks(srcOffset, length, bs);
    AlignedLength(srcOffset, length, bs);
  }

  lemma AlignedLength(off: nat, length: nat, bs: nat)
    requires bs > 0
    ensures (AlignDown(off + length, bs) - AlignUp(off, bs)) % bs == 0
    ensures Crossed(off, length, bs) == 0 ==> AlignUp(off, bs) - AlignDown(off + length, bs) == bs
  {
    var p, q := off / bs, (off + length) / bs;
    var n := q * bs - (p + 1) * bs;
    assert n == bs * (q - p - 1);
    DivByWitness(n, bs, q - p - 1);
  }

  /** Head, tail and middle, written in this order, are one write of the whole range. */
  lemma Tiled(d: seq<Byte>, src: seq<Byte>, so: nat, n: nat, dof: nat, a: nat, z: nat)
    requires so <= a <= z <= so + n <= |src| && dof + n <= |d|
    ensures var head, mid, tail := src[so..a], src[a..z], src[z..so + n];
            var copies := Overlay(Overlay(d, dof, head), dof + (z - so), tail);
            && Overlay(copies, dof + (a - so), mid) == Overlay(d, dof, src[so..so + n])
            && (a == z ==> copies == Overlay(d, dof, src[so..so + n]))
  {
    hide Overlay;
    var head, mid, tail := src[so..a], src[a..z], src[z..so + n];
    var d1 := Overlay(d, dof, head);
    var d2 := Overlay(d1, dof + (z - so), tail);
    var d3 := Overlay(d2, dof + (a - so), mid);
    var whole := Overlay(d, dof, src[so..so + n]);
    forall i: nat | i < |d|
      ensures d3[i] == whole[i] && (a == z ==> d2[i] == whole[i])
    {
      OverlayAt(d, dof, head, i);
      OverlayAt(d1, dof + (z - so), tail, i);
      OverlayAt(d2, dof + (a - so), mid, i);
      OverlayAt(d, dof, src[so..so + n], i);
    }
  }

  /** Without reflinks, or if source and target are not aligned alike, the range is copied. */
  predicate Plain(so: nat, dof: nat, bs: nat, canReflink: bool)
    requires bs > 0
  {
    !canReflink || so % bs != dof % bs
  }

  /**
   fileSeedSegment.WriteInto for a segment of `size` bytes at srcOffset. Success writes exactly the
   segment if the source still has it and it is copied, crosses two block starts, or ends the source.
   */
  method WriteInto(dst: OsFile, src: seq<Byte>, srcOffset: nat, size: nat, offset: nat, length: nat, bs: nat, canReflink: bool)
    returns (copied: nat, cloned: nat, ok: bool)
    requires bs > 0 && offset + length <= |dst.data|
    requires |src| + bs < U64 && srcOffset + length + bs < U64 && |dst.data| + bs < U64
    modifies dst
    ensures length != size ==> !ok && dst.data == old(dst.data)
    ensures ok <==> length == size && (Plain(srcOffset, offset, bs, canReflink) || (dst.accepts && Clonable(|src|, srcOffset, length, bs)))
    ensures ok ==> copied + cloned == |Limited(src, srcOffset, length)|
    ensures ok && Plain(srcOffset, offset, bs, canReflink) ==>
      dst.data == Overlay(old(dst.data), offset, Limited(src, srcOffset, length))
    ensures ok && !Plain(srcOffset, offset, bs, canReflink) ==>
      Clonable(|src|, srcOffset, length, bs) && dst.data == AfterClone(old(dst.data), src, srcOffset, length, offset, bs)
    ensures
      && ok && srcOffset + length <= |src|
      && (Plain(srcOffset, offset, bs, canReflink) || Crossed(srcOffset, length, bs) >= 2 || srcOffset + length == |src|)
      ==> dst.data == Overlay(old(dst.data), offset, src[srcOffset..srcOffset + length]) && copied + cloned == length
  {
    hide Overlay, AfterClone, Crossed, Clonable;
    if length != size {
      return 0, 0, false;
    }
    if srcOffset + length <= |src| {
      LimitedIs(src, srcOffset, srcOffset + length);
    }
    ghost var d0 := dst.data;
    if !canReflink || srcOffset % bs != offset % bs {
      copied := CopyRange(dst, src, srcOffset, length, offset);
      return copied, 0, true;
    }
    copied, cloned, ok := Clone(dst, src, srcOffset, length, offset, bs);
    if ok && srcOffset + length <= |src| && (Crossed(srcOffset, length, bs) >= 2 || srcOffset + length == |src|) {
      ExactClone(d0, src, srcOffset, length, offset, bs);
    }
  }

  // ---------- the null seed ----------

  lemma RoundStep(n: nat, bs: nat)
    requires bs > 0 && n > 0 && n % bs == 0
    ensures n >= bs && (n - bs) % bs == 0
  {
    var q := n / bs;
    assert n == bs * q;
    MulSign(bs, q);
    DivByWitness(n - bs, bs, q - 1);
  }

  lemma ZerosJoin(a: nat, b: nat)
    ensures ZeroBytes(a) + ZeroBytes(b) == ZeroBytes(a + b)
  {
  }

  method CopyZeros(dst: OsFile, offset: nat, length: nat)
    modifies dst
    ensures dst.data == Overlay(old(dst.data), offset, ZeroBytes(length))
  {
    dst.data := Overlay(dst.data, offset, ZeroBytes(length));
  }

  /** The target after clearing a range by cloning: inside one block, the whole block. */
  function AfterZeros(d: seq<Byte>, off: nat, n: nat, bs: nat): seq<Byte>
    requires bs > 0
  {
    if Crossed(off, n, bs) >= 1 then Overlay(d, off, ZeroBytes(n)) else Overlay(d, AlignDown(off, bs), ZeroBytes(bs))
  }

  /** Clearing a range is exact whatever the target holds exactly if the range reaches the next block start. */
  lemma ZerosAreExactIff(room: nat, off: nat, n: nat, bs: nat)
    requires bs > 0 && off + n <= room
    ensures (forall d: seq<Byte> :: |d| == room ==> AfterZeros(d, off, n, bs) == Overlay(d, off, ZeroBytes(n))) <==> Crossed(off, n, bs) >= 1
  {
    hide Overlay, Crossed, ZeroBytes;
    if Crossed(off, n, bs) == 0 {
      var d: seq<Byte> := seq(room, _ => 1);
      WholeBlockCleared(d, off, n, bs);
      assert |d| == room;
    }
  }

  lemma WholeBlockCleared(d: seq<Byte>, off: nat, n: nat, bs: nat)
    requires bs > 0 && off + n <= |d| && d == seq(|d|, _ => 1) && Crossed(off, n, bs) == 0
    ensures AfterZeros(d, off, n, bs) != Overlay(d, off, ZeroBytes(n))
  {
    hide Overlay, Crossed, ZeroBytes, AlignUp, AlignDown;
    CloneNumbers(off, n, off, bs);
    AlignFacts(off, bs);
    AlignFacts(off + n, bs);
    var block, last := AlignDown(off, bs), AlignUp(off, bs) - 1;
    var d1, d2 := Overlay(d, off, ZeroBytes(n)), Overlay(d, block, ZeroBytes(bs));
    OverlaySize(d, off, ZeroBytes(n));
    OverlaySize(d, block, ZeroBytes(bs));
    if |d1| == |d2| {
      OverlayAt(d, off, ZeroBytes(n), last);
      OverlayAt(d, block, ZeroBytes(bs), last);
      assert d1[last] == 1 && d2[last] == 0;
    }
  }

  /** Two bytes inside a block of four, at the end of the file: the block is cleared and the file grows. */
  lemma CloneClearsTooMuch()
    ensures AfterZeros([1, 1, 1, 1], 1, 2, 4) == [0, 0, 0, 0] && Overlay([1, 1, 1, 1], 1, ZeroBytes(2)) == [1, 0, 0, 1]
    ensures AfterZeros([1, 1, 1], 1, 2, 4) == [0, 0, 0, 0] && Overlay([1, 1, 1], 1, ZeroBytes(2)) == [1, 0, 0]
  {
    assert Crossed(1, 2, 4) == 0 && AlignDown(1, 4) == 0;
    assert ZeroBytes(4) == [0, 0, 0, 0] && ZeroBytes(2) == [0, 0];
  }

  /**
   nullChunkSection.clone. A range that reaches the next block start is filled with zeros and
   nothing else is touched; a range inside one block has that whole block filled with zeros,
   and the file grows to its end if it stopped short of it.
   */
  method CloneZeros(dst: OsFile, block: seq<Byte>, offset: nat, length: nat, bs: nat)
    returns (copied: nat, cloned: nat, ok: bool)
    requires bs > 0 && block == ZeroBytes(bs) && offset + length <= |dst.data| && |dst.data| + bs < U64
    modifies dst
    ensures ok <==> Crossed(offset, length, bs) < 2 || dst.accepts
    ensures ok ==> dst.data == AfterZeros(old(dst.data), offset, length, bs)
    ensures ok && Crossed(offset, length, bs) >= 1 ==> copied + cloned == length
    ensures Crossed(offset, length, bs) == 0 ==> ok && copied + cloned == bs + length
  {
    hide Overlay, ZeroBytes, AlignUp, AlignDown, Crossed;
    CloneNumbers(offset, length, offset, bs);
    AlignFacts(offset, bs);
    AlignFacts(offset + length, bs);
    var start, end := AlignUp(offset, bs), AlignDown(offset + length, bs);
    ghost var d0 := dst.data;
    CopyZeros(dst, offset, start - offset);
    CopyZeros(dst, end, offset + length - end);
    copied := (start - offset) + (offset + length - end);
    cloned, ok := CloneBlocks(dst, block, start, end, bs);
    if start > end {
      OneBlock(d0, offset, length, start - offset, end);
    } else {
      ZerosTiled(d0, offset, length, start, end);
    }
  }

  /** The loop of nullChunkSection.clone: one clone of the zero block per whole block. */
  method CloneBlocks(dst: OsFile, block: seq<Byte>, start: nat, end: nat, bs: nat) returns (cloned: nat, ok: bool)
    requires bs > 0 && block == ZeroBytes(bs)
    requires start <= end ==> end <= |dst.data| && (end - start) % bs == 0
    modifies dst
    ensures ok && start <= end ==> cloned == end - start && dst.data == Overlay(old(dst.data), start, ZeroBytes(end - start))
    ensures start > end ==> cloned == 0 && dst.data == old(dst.data)
    ensures ok <==> start >= end || dst.accepts
  {
    hide Overlay, ZeroBytes;
    cloned, ok := 0, true;
    var blk := start;
    assert ZeroBytes(0) == [];
    OverlayEmpty(dst.data, start);
    while blk < end
      invariant start <= blk && cloned == blk - start && ok && (blk > start ==> dst.accepts)
      invariant start > end ==> blk == start && dst.data == old(dst.data)
      invariant start <= end ==> blk <= end && (end - blk) % bs == 0
      invariant start <= end ==> dst.data == Overlay(old(dst.data), start, ZeroBytes(blk - start))
    {
      RoundStep(end - blk, bs);
      ok := CloneRange(dst, block, 0, bs, blk);
      if !ok {
        return;
      }
      assert block[0..bs] == ZeroBytes(bs);
      OverlayAppend(old(dst.data), start, ZeroBytes(blk - start), ZeroBytes(bs));
      ZerosJoin(blk - start, bs);
      blk := blk + bs;
      cloned := cloned + bs;
    }
  }

  lemma ZerosTiled(d: seq<Byte>, off: nat, n: nat, a: nat, z: nat)
    requires off <= a <= z <= off + n <= |d|
    ensures Overlay(Overlay(Overlay(d, off, ZeroBytes(a - off)), z, ZeroBytes(off + n - z)), a, ZeroBytes(z - a))
         == Overlay(d, off, ZeroBytes(n))
  {
    hide Overlay, ZeroBytes;
    var d1 := Overlay(d, off, ZeroBytes(a - off));
    var d2 := Overlay(d1, z, ZeroBytes(off + n - z));
    var d3 := Overlay(d2, a, ZeroBytes(z - a));
    forall i: nat | i < |d|
      ensures d3[i] == Overlay(d, off, ZeroBytes(n))[i]
    {
      OverlayAt(d, off, ZeroBytes(a - off), i);
      OverlayAt(d1, z, ZeroBytes(off + n - z), i);
      OverlayAt(d2, a, ZeroBytes(z - a), i);
      OverlayAt(d, off, ZeroBytes(n), i);
    }
  }

  /** Inside one block: from the range's start to the block's end, then from the block's start to the range's end. */
  lemma OneBlock(d: seq<Byte>, off: nat, n: nat, head: nat, block: nat)
    requires block <= off && n <= head && off + n <= |d|
    ensures Overlay(Overlay(d, off, ZeroBytes(head)), block, ZeroBytes(off + n - block))
         == Overlay(d, block, ZeroBytes(off + head - block))
  {
    hide Overlay, ZeroBytes;
    var d1 := Overlay(d, off, ZeroBytes(head));
    var d2 := Overlay(d1, block, ZeroBytes(off + n - block));
    var whole := Overlay(d, block, ZeroBytes(off + head - block));
    OverlaySize(d, off, ZeroBytes(head));
    OverlaySize(d1, block, ZeroBytes(off + n - block));
    OverlaySize(d, block, ZeroBytes(off + head - block));
    forall i: nat | i < |d2|
      ensures d2[i] == whole[i]
    {
      OverlayAt(d, off, ZeroBytes(head), i);
      OverlayAt(d1, block, ZeroBytes(off + n - block), i);
      OverlayAt(d, block, ZeroBytes(off + head - block), i);
    }
  }

  /** nullChunkSection.WriteInto for the section from..to; nothing is written to a blank target without reflinks. */
  method WriteZeros(dst: OsFile, block: seq<Byte>, from: nat, to: nat, offset: nat, length: nat, bs: nat, canReflink: bool, isBlank: bool)
    returns (copied: nat, cloned: nat, ok: bool)
    requires bs > 0 && from <= to && (canReflink ==> block == ZeroBytes(bs))
    requires offset + length <= |dst.data| && |dst.data| + bs < U64
    modifies dst
    ensures length != to - from ==> !ok && dst.data == old(dst.data)
    ensures ok <==> length == to - from && (!canReflink || Crossed(offset, length, bs) < 2 || dst.accepts)
    ensures ok && canReflink ==> dst.data == AfterZeros(old(dst.data), offset, length, bs)
    ensures ok && !canReflink && (isBlank ==> old(dst.data)[offset..offset + length] == ZeroBytes(length)) ==>
      dst.data == Overlay(old(dst.data), offset, ZeroBytes(length))
    ensures ok && (canReflink ==> Crossed(offset, length, bs) >= 1) && (canReflink || !isBlank) ==> copied + cloned == length
  {
    hide ZeroBytes;
    if length != to - from {
      return 0, 0, false;
    }
    if !canReflink {
      if isBlank {
        return 0, 0, true;
      }
      CopyZeros(dst, offset, length);
      return length, 0, true;
    }
    copied, cloned, ok := CloneZeros(dst, block, offset, length, bs);
  }
}
