/**
 Index files: a format element with the chunking parameters followed by a table of chunk
 end offsets and IDs.
 */
module IndexFile {
  import opened Chunking
  import opened Prelude
  import opened Format
  import opened Encoder
  import opened Decoder

  /** CaFormatSHA512256, bit 61 of the feature flags. */
  const SHA512_256 := 0x2000_0000_0000_0000

  datatype IndexData = IndexData(flags: nat, min: nat, avg: nat, max: nat, chunks: seq<IndexChunk>)

  datatype ReadResult = Ok(index: IndexData) | NotAnIndex | WrongDigest | BadTable | ChunkTooLarge

  // ---------- writing ----------

  /** One row per chunk, holding the offset at which the chunk ends; the sum wraps at 64 bits. */
  function Rows(chunks: seq<IndexChunk>, offset: nat): seq<TableItem> {
    if chunks == [] then [] else
      var end := (offset + chunks[0].size) % U64;
      [TableItem(end, chunks[0].id)] + Rows(chunks[1..], end)
  }

  function IndexBytes(x: IndexData): seq<Byte> {
    Encode(Index(x.flags, x.min, x.avg, x.max)) + Encode(Table(Rows(x.chunks, 0)))
  }

  /** Writes the index and returns the number of bytes written. */
  method WriteTo(x: IndexData) returns (out: seq<Byte>, n: nat)
    ensures out == IndexBytes(x) && n == |out|
  {
    hide Encode;
    var enc := new FormatEncoder();
    n := enc.Encode(Index(x.flags, x.min, x.avg, x.max));
    var offset, rows := 0, [];
    for p := 0 to |x.chunks|
      invariant 0 <= offset < U64
      invariant Rows(x.chunks, 0) == rows + Rows(x.chunks[p..], offset)
      invariant enc.out == Encode(Index(x.flags, x.min, x.avg, x.max)) && n == |enc.out|
    {
      offset := (offset + x.chunks[p].size) % U64;
      rows := rows + [TableItem(offset, x.chunks[p].id)];
    }
    assert rows == Rows(x.chunks, 0);
    var n1 := enc.Encode(Table(rows));
    n := n + n1;
    out := enc.out;
  }

  // ---------- reading ----------

  /** The chunks of a table; a size is the wrapped difference of two offsets. None if one exceeds max. */
  function ChunksOf(rows: seq<TableItem>, last: nat, max: nat): Option<seq<IndexChunk>> {
    if rows == [] then Some([]) else
      var size := (rows[0].offset - last) % U64;
      if size > max then None else
      match ChunksOf(rows[1..], rows[0].offset, max)
      case None => None
      case Some(cs) => Some([IndexChunk(rows[0].id, last, size)] + cs)
  }

  predicate DigestMatches(flags: nat, sha512: bool) {
    (flags / SHA512_256 % 2 == 1) == sha512
  }

  /** IndexFromReader; `sha512` says which digest the library uses. */
  function ReadIndex(b: seq<Byte>, sha512: bool): ReadResult {
    match Decode(b)
    case End => NotAnIndex
    case Bad => NotAnIndex
    case Got(e, rest) =>
      if !e.Index? then NotAnIndex
      else if !DigestMatches(e.indexFlags, sha512) then WrongDigest
      else match Decode(rest)
        case End => BadTable
        case Bad => BadTable
        case Got(t, _) =>
          if !t.Table? then BadTable else
          match ChunksOf(t.rows, 0, e.max)
          case None => ChunkTooLarge
          case Some(cs) => Ok(IndexData(e.indexFlags, e.min, e.avg, e.max, cs))
  }

  /** The same with the loop of the source over the table's rows. */
  method IndexFromReader(b: seq<Byte>, sha512: bool) returns (r: ReadResult)
    ensures r == ReadIndex(b, sha512)
  {
    hide Decode, ChunksOf;
    var dec := new FormatDecoder(b);
    var d := dec.Next();
    if !d.Got? || !d.elem.Index? { return NotAnIndex; }
    var e := d.elem;
    if !DigestMatches(e.indexFlags, sha512) { return WrongDigest; }
    d := dec.Next();
    if !d.Got? || !d.elem.Table? { return BadTable; }
    var chunks := ChunksFromTable(d.elem.rows, e.max);
    r := if chunks.None? then ChunkTooLarge else Ok(IndexData(e.indexFlags, e.min, e.avg, e.max, chunks.value));
  }

  /** The loop over the rows, with the offset of the last one. */
  method ChunksFromTable(rows: seq<TableItem>, max: nat) returns (r: Option<seq<IndexChunk>>)
    ensures r == ChunksOf(rows, 0, max)
  {
    var chunks, last := [], 0;
    for i := 0 to |rows|
      invariant match ChunksOf(rows[i..], last, max)
                case None => ChunksOf(rows, 0, max).None?
                case Some(cs) => ChunksOf(rows, 0, max).Some? && ChunksOf(rows, 0, max).value == chunks + cs
    {
      var size := (rows[i].offset - last) % U64;
      assert rows[i..][1..] == rows[i + 1..];
      if size > max { return None; }
      chunks := chunks + [IndexChunk(rows[i].id, last, size)];
      last := rows[i].offset;
    }
    assert chunks + [] == chunks;
    r := Some(chunks);
  }

  // ---------- round trip ----------

  /** Chunks that follow one another from `start` on, none larger than max, ending below 2^64. */
  predicate Contiguous(chunks: seq<IndexChunk>, start: nat, max: nat) {
    if chunks == [] then start < U64 else
      && chunks[0].start == start && chunks[0].size <= max && |chunks[0].id| == 32
      && start + chunks[0].size > 0
      && Contiguous(chunks[1..], start + chunks[0].size, max)
  }

  lemma {:induction false} ContiguousEnd(chunks: seq<IndexChunk>, start: nat, max: nat)
    requires Contiguous(chunks, start, max)
    ensures start < U64
  {
    if chunks != [] { ContiguousEnd(chunks[1..], start + chunks[0].size, max); }
  }

  lemma RowsUnfold(chunks: seq<IndexChunk>, start: nat)
    requires chunks != [] && start + chunks[0].size < U64
    ensures var end, rows := start + chunks[0].size, Rows(chunks, start);
            rows != [] && rows[0] == TableItem(end, chunks[0].id) && rows[1..] == Rows(chunks[1..], end)
  {
  }

  lemma {:induction false} RowsValid(chunks: seq<IndexChunk>, start: nat, max: nat)
    requires Contiguous(chunks, start, max)
    ensures Table(Rows(chunks, start)).Valid()
    decreases |chunks|
  {
    if chunks != [] {
      var end := start + chunks[0].size;
      ContiguousEnd(chunks[1..], end, max);
      RowsUnfold(chunks, start);
      RowsValid(chunks[1..], end, max);
      var rows := Rows(chunks, start);
      hide Rows;
      forall i | 0 <= i < |rows|
        ensures 0 < rows[i].offset < U64 && |rows[i].id| == 32
      {
        if i > 0 { assert rows[i] == rows[1..][i - 1]; }
      }
    }
  }

  /** All chunks are within the limit. */
  predicate WithinMax(chunks: seq<IndexChunk>, max: nat) {
    forall i :: 0 <= i < |chunks| ==> chunks[i].size <= max
  }

  lemma {:induction false} TableOutcome(chunks: seq<IndexChunk>, start: nat, max: nat)
    requires Contiguous(chunks, start, MAX_U64)
    ensures ChunksOf(Rows(chunks, start), start, max) == if WithinMax(chunks, max) then Some(chunks) else None
    decreases |chunks|
  {
    if chunks != [] {
      var end := start + chunks[0].size;
      ContiguousEnd(chunks[1..], end, MAX_U64);
      assert chunks[0].start == start;
      hide Rows, Contiguous, WithinMax, ChunksOf;
      TableOutcome(chunks[1..], end, max);
      RowsUnfold(chunks, start);
      TailWithin(chunks, max);
      FirstRow(Rows(chunks, start), start, max, chunks[0].size);
      assert [chunks[0]] + chunks[1..] == chunks;
    } else {
      hide Contiguous;
    }
  }

  /** The first row gives the first chunk, if that is within the limit. */
  lemma FirstRow(rows: seq<TableItem>, last: nat, max: nat, size: nat)
    requires rows != [] && rows[0].offset == last + size && size < U64
    ensures var rest := ChunksOf(rows[1..], rows[0].offset, max);
            ChunksOf(rows, last, max) == if size > max || rest.None? then None else Some([IndexChunk(rows[0].id, last, size)] + rest.value)
  {
    assert (rows[0].offset - last) % U64 == size;
  }

  lemma TailWithin(chunks: seq<IndexChunk>, max: nat)
    requires chunks != []
    ensures WithinMax(chunks, max) <==> chunks[0].size <= max && WithinMax(chunks[1..], max)
  {
    if WithinMax(chunks[1..], max) && chunks[0].size <= max {
      forall i | 0 <= i < |chunks|
        ensures chunks[i].size <= max
      {
        if i > 0 { assert chunks[i] == chunks[1..][i - 1]; }
      }
    }
  }

  /** The flags name the digest in bit 61, whatever the other bits are. */
  lemma DigestIsBit61(high: nat, bit: nat, low: nat, sha512: bool)
    requires bit < 2 && low < 0x2000_0000_0000_0000
    ensures DigestMatches(high * 0x4000_0000_0000_0000 + bit * 0x2000_0000_0000_0000 + low, sha512) <==> (bit == 1) == sha512
  {
    var flags := high * 0x4000_0000_0000_0000 + bit * 0x2000_0000_0000_0000 + low;
    assert flags / 0x2000_0000_0000_0000 == 2 * high + bit;
  }

  /**
   What reading gives of any index that was written, in order: the wrong digest if bit 61 of the flags
   does not name the library's, an error if a chunk exceeds the index's own limit, and otherwise the
   same parameters and the same chunks.
   */
  lemma IndexOutcome(x: IndexData, high: nat, bit: nat, low: nat, sha512: bool)
    requires AllU64([x.flags, x.min, x.avg, x.max]) && Contiguous(x.chunks, 0, MAX_U64)
    requires bit < 2 && low < 0x2000_0000_0000_0000 && x.flags == high * 0x4000_0000_0000_0000 + bit * 0x2000_0000_0000_0000 + low
    ensures ReadIndex(IndexBytes(x), sha512) ==
            if (bit == 1) != sha512 then WrongDigest
            else if exists i :: 0 <= i < |x.chunks| && x.chunks[i].size > x.max then ChunkTooLarge
            else Ok(x)
  {
    hide ReadIndex, IndexBytes, Rows, ChunksOf, Contiguous, DigestMatches, WithinMax, AllU64;
    DigestIsBit61(high, bit, low, sha512);
    WithinMeans(x.chunks, x.max);
    TableOutcome(x.chunks, 0, x.max);
    ReadWritten(x, sha512);
  }

  lemma WithinMeans(chunks: seq<IndexChunk>, max: nat)
    ensures WithinMax(chunks, max) <==> !exists i :: 0 <= i < |chunks| && chunks[i].size > max
  {
  }

  lemma ReadWritten(x: IndexData, sha512: bool)
    requires AllU64([x.flags, x.min, x.avg, x.max]) && Contiguous(x.chunks, 0, MAX_U64)
    ensures ReadIndex(IndexBytes(x), sha512) ==
            if !DigestMatches(x.flags, sha512) then WrongDigest
            else if ChunksOf(Rows(x.chunks, 0), 0, x.max).None? then ChunkTooLarge
            else Ok(IndexData(x.flags, x.min, x.avg, x.max, ChunksOf(Rows(x.chunks, 0), 0, x.max).value))
  {
    hide Decode, Encode, Rows, ChunksOf, Contiguous, DigestMatches;
    var rows := Rows(x.chunks, 0);
    RowsValid(x.chunks, 0, MAX_U64);
    var h, t := Index(x.flags, x.min, x.avg, x.max), Table(rows);
    DecodeEncode(h, Encode(t));
    DecodeEncode(t, []);
    assert Encode(t) + [] == Encode(t);
  }

  /** Every contiguous index within its own limit reads back as written. */
  lemma IndexRoundTrip(x: IndexData, sha512: bool)
    requires AllU64([x.flags, x.min, x.avg, x.max]) && DigestMatches(x.flags, sha512)
    requires Contiguous(x.chunks, 0, x.max)
    ensures ReadIndex(IndexBytes(x), sha512) == Ok(x)
  {
    assert [x.flags, x.min, x.avg, x.max][3] < U64;
    var q, low := x.flags / 0x2000_0000_0000_0000, x.flags % 0x2000_0000_0000_0000;
    var high, bit := q / 2, q % 2;
    assert x.flags == high * 0x4000_0000_0000_0000 + bit * 0x2000_0000_0000_0000 + low;
    DigestIsBit61(high, bit, low, sha512);
    WithinItsMax(x.chunks, 0, x.max);
    hide ReadIndex, IndexBytes, DigestMatches, Contiguous;
    IndexOutcome(x, high, bit, low, sha512);
  }

  lemma {:induction false} WithinItsMax(chunks: seq<IndexChunk>, start: nat, max: nat)
    requires Contiguous(chunks, start, max) && max < U64
    ensures Contiguous(chunks, start, MAX_U64) && forall i :: 0 <= i < |chunks| ==> chunks[i].size <= max
    decreases |chunks|
  {
    if chunks != [] {
      WithinItsMax(chunks[1..], start + chunks[0].size, max);
      forall i | 0 <= i < |chunks|
        ensures chunks[i].size <= max
      {
        if i > 0 { assert chunks[i] == chunks[1..][i - 1]; }
      }
    }
  }
}
