/**
 The decoder of format elements: it reads word by word from a stream, gives up where the stream
 ends too early, and remembers how much of the last payload its caller may still read.
 */
module Decoder {
  import opened Prelude
  import opened Chunking
  import opened GoodbyeBst
  import opened Format

  /** What reading eight bytes can give: a number, the end of the stream, or an end in the middle. */
  datatype Word = Value(v: nat) | Eof | Short

  /** binary.LittleEndian.Uint64, from the highest byte down. */
  method Uint64(b: seq<Byte>) returns (v: nat)
    ensures v == UnLe(b)
  {
    v := 0;
    var i := |b|;
    while i > 0
      invariant 0 <= i <= |b| && v == UnLe(b[i..])
    {
      i := i - 1;
      assert b[i..][1..] == b[i + 1..];
      v := b[i] + 256 * v;
    }
    assert b[0..] == b;
  }

  /** What is read in all is what has been got and what is still to be read. */
  ghost predicate GoesOn<T>(all: Option<(seq<T>, seq<Byte>)>, got: seq<T>, now: Option<(seq<T>, seq<Byte>)>) {
    if now.None? then all.None? else all.Some? && all.value.0 == got + now.value.0 && all.value.1 == now.value.1
  }

  class FormatDecoder {
    var r: seq<Byte>
    var advance: nat  // unread bytes of the last payload

    constructor (b: seq<Byte>)
      ensures Remaining() == b
    {
      r, advance := b, 0;
    }

    /** What the next element is read from: the stream after the rest of the last payload. */
    ghost function Remaining(): seq<Byte>
      reads this
    {
      r[Min(advance, |r|)..]
    }

    /** Reading part of a payload does not change where the next element starts. */
    method ReadPayload(n: nat) returns (b: seq<Byte>)
      modifies this
      ensures Remaining() == old(Remaining())
      ensures b == old(r)[..Min(n, Min(old(advance), |old(r)|))]
    {
      var k := Min(n, Min(advance, |r|));
      b := r[..k];
      r, advance := r[k..], advance - k;
    }

    method ReadUint64() returns (w: Word)
      modifies this`r
      ensures w.Value? <==> |old(r)| >= 8
      ensures w.Eof? <==> |old(r)| == 0
      ensures w.Value? ==> w.v == UnLe(old(r)[..8]) && r == old(r)[8..]
    {
      if |r| < 8 {
        w := if |r| == 0 then Eof else Short;
        r := [];
        return;
      }
      var v := Uint64(r[..8]);
      r := r[8..];
      w := Value(v);
    }

    /** The next n bytes. */
    method ReadN(n: nat) returns (b: Option<seq<Byte>>)
      modifies this`r
      ensures b.Some? <==> |old(r)| >= n
      ensures b.Some? ==> b.value == old(r)[..n] && r == old(r)[n..]
    {
      if |r| < n {
        r := [];
        return None;
      }
      b := Some(r[..n]);
      r := r[n..];
    }

    /** n numbers one after the other. */
    method ReadUint64s(n: nat) returns (vs: Option<seq<nat>>)
      modifies this`r
      ensures vs.None? <==> ReadWords(old(r), n).None?
      ensures vs.Some? ==> ReadWords(old(r), n).value.0 == vs.value && ReadWords(old(r), n).value.1 == r
    {
      hide UnLe;
      var got: seq<nat> := [];
      for i := 0 to n
        invariant GoesOn(ReadWords(old(r), n), got, ReadWords(r, n - i))
      {
        var w := ReadUint64();
        if !w.Value? {
          return None;
        }
        got := got + [w.v];
      }
      vs := Some(got);
    }

    /** A string without its trailing zero byte. */
    method ReadText(size: nat) returns (s: Option<seq<Byte>>)
      modifies this`r
      ensures s.None? <==> ReadString(size, old(r)).None?
      ensures s.Some? ==> ReadString(size, old(r)).value.0 == s.value && ReadString(size, old(r)).value.1 == r
    {
      if size < 17 {
        return None;
      }
      var b := ReadN(size - 16);
      if b.None? {
        return None;
      }
      s := Some(b.value[..|b.value| - 1]);
    }

    method ReadGoodbyeItems(n: nat) returns (items: Option<seq<Item>>)
      modifies this`r
      ensures items.None? <==> ReadItems(old(r), n).None?
      ensures items.Some? ==> ReadItems(old(r), n).value.0 == items.value && ReadItems(old(r), n).value.1 == r
    {
      hide ReadWords;
      var got: seq<Item> := [];
      for i := 0 to n
        invariant GoesOn(ReadItems(old(r), n), got, ReadItems(r, n - i))
      {
        var v := ReadUint64s(3);
        if v.None? {
          return None;
        }
        got := got + [Item(v.value[0], v.value[1], v.value[2])];
      }
      items := Some(got);
    }

    method ReadGoodbye(size: nat) returns (d: Decoded)
      modifies this`r
      ensures d == DecodeGoodbye(size, old(r)) && (d.Got? ==> r == d.rest)
    {
      hide ReadItems;
      if size < 16 {
        return Bad;
      }
      var items := ReadGoodbyeItems((size - 16) / 24);
      if items.None? || |items.value| < 1 || items.value[|items.value| - 1].hash != GOODBYE_TAIL {
        return Bad;
      }
      d := Got(Goodbye(items.value), r);
    }

    /** Rows up to the first offset of zero. */
    method ReadTableRows() returns (rows: Option<seq<TableItem>>)
      modifies this`r
      ensures rows.None? <==> ReadRows(old(r)).None?
      ensures rows.Some? ==> ReadRows(old(r)).value.0 == rows.value && ReadRows(old(r)).value.1 == r
    {
      hide UnLe;
      var got: seq<TableItem> := [];
      while true
        invariant GoesOn(ReadRows(old(r)), got, ReadRows(r))
        decreases |r|
      {
        var w := ReadUint64();
        if !w.Value? {
          return None;
        }
        if w.v == 0 {
          assert got + [] == got;
          return Some(got);
        }
        var id := ReadN(32);
        if id.None? {
          return None;
        }
        got := got + [TableItem(w.v, id.value)];
      }
    }

    method ReadTable(size: nat) returns (d: Decoded)
      modifies this`r
      ensures d == DecodeBody(size, TABLE, old(r)) && (d.Got? ==> r == d.rest)
    {
      hide ReadWords, ReadRows, UnLe;
      if size != MAX_U64 {
        return Bad;
      }
      var rows := ReadTableRows();
      if rows.None? {
        return Bad;
      }
      var v := ReadUint64s(4);
      if v.None? || v.value[0] != 0 || v.value[3] != TABLE_TAIL {
        return Bad;
      }
      d := Got(Table(rows.value), r);
    }

    method ReadExtra(size: nat, typ: nat) returns (x: Option<Extra>)
      modifies this`r
      ensures x.None? <==> DecodeExtra(size, typ, old(r)).None?
      ensures x.Some? ==> DecodeExtra(size, typ, old(r)) == Some((x.value, r))
    {
      hide ReadWords, ReadString;
      if typ == USER || typ == GROUP || typ == SELINUX {
        var s := ReadText(size);
        if s.None? {
          return None;
        }
        return Some(if typ == USER then User(s.value) else if typ == GROUP then Group(s.value) else SELinux(s.value));
      }
      if typ == FCAPS {
        if size < 16 {
          return None;
        }
        var b := ReadN(size - 16);
        return if b.None? then None else Some(FCaps(b.value));
      }
      if typ == ACL_USER || typ == ACL_GROUP {
        var v := ReadUint64s(2);
        if v.None? || size < 16 {
          return None;
        }
        var s := ReadText(size - 16);
        if s.None? {
          return None;
        }
        return Some(if typ == ACL_USER then ACLUser(v.value[0], v.value[1], s.value) else ACLGroup(v.value[0], v.value[1], s.value));
      }
      if typ == ACL_GROUP_OBJ {
        var v := ReadUint64s(1);
        return if v.None? then None else Some(ACLGroupObj(v.value[0]));
      }
      if typ == ACL_DEFAULT {
        var v := ReadUint64s(4);
        return if v.None? then None else Some(ACLDefault(v.value[0], v.value[1], v.value[2], v.value[3]));
      }
      return None;
    }

    /** Elements of a fixed number of words. */
    method ReadFixed(size: nat, typ: nat) returns (d: Decoded)
      requires typ == ENTRY || typ == DEVICE || typ == INDEX
      modifies this`r
      ensures d == DecodeBody(size, typ, old(r)) && (d.Got? ==> r == d.rest)
    {
      hide ReadWords;
      if (typ == ENTRY && size != 64) || (typ == DEVICE && size != 32) {
        return Bad;
      }
      var vs := ReadUint64s(if typ == ENTRY then 6 else if typ == DEVICE then 2 else 4);
      if vs.None? {
        return Bad;
      }
      var v := vs.value;
      d := Got(if typ == ENTRY then Entry(v[0], v[1], v[2], v[3], v[4], v[5])
               else if typ == DEVICE then Device(v[0], v[1])
               else Index(v[0], v[1], v[2], v[3]), r);
    }

    /** What follows a header. A payload is left in the stream for the caller to read. */
    method ReadBody(size: nat, typ: nat) returns (d: Decoded)
      requires advance == 0
      modifies this
      ensures d == DecodeBody(size, typ, old(r)) && (d.Got? ==> Remaining() == d.rest)
    {
      hide ReadWords, ReadString, ReadRows, DecodeGoodbye, DecodeExtra, PayloadLength;
      if typ == ENTRY || typ == DEVICE || typ == INDEX {
        d := ReadFixed(size, typ);
      } else if typ == XATTR || typ == FILENAME || typ == SYMLINK {
        var s := ReadText(size);
        if s.None? {
          return Bad;
        }
        d := Got(if typ == XATTR then XAttr(s.value) else if typ == FILENAME then Filename(s.value) else Symlink(s.value), r);
      } else if typ == PAYLOAD {
        advance := PayloadLength(size, |r|);
        d := Got(Payload(size, r[..advance]), r[advance..]);
      } else if typ == GOODBYE {
        d := ReadGoodbye(size);
      } else if typ == TABLE {
        d := ReadTable(size);
      } else {
        var x := ReadExtra(size, typ);
        d := if x.None? then Bad else Got(Skip(x.value), r);
      }
    }

    /** The next element; nil only where the stream ends at the start of one of the header's words. */
    method Next() returns (d: Decoded)
      modifies this
      ensures d == Decode(old(Remaining()))
      ensures d.Got? ==> Remaining() == d.rest
    {
      hide DecodeBody, UnLe;
      r := r[Min(advance, |r|)..];
      advance := 0;
      ghost var b := r;
      var size := ReadUint64();
      if size.Eof? {
        return End;
      }
      if size.Short? {
        return Bad;
      }
      var typ := ReadUint64();
      if typ.Eof? {
        return End;
      }
      if typ.Short? {
        return Bad;
      }
      TwoWords(b);
      d := ReadBody(size.v, typ.v);
    }
  }

  lemma TwoWords(b: seq<Byte>)
    requires |b| >= 16
    ensures var w := ReadWords(b, 2);
            w.Some? && w.value.0 == [UnLe(b[..8]), UnLe(b[8..][..8])] && w.value.1 == b[8..][8..]
  {
    hide UnLe;
    var t := b[8..];
    assert ReadWords(t[8..], 0) == Some(([], t[8..]));
    assert ReadWords(t, 1) == Some(([UnLe(t[..8])] + [], t[8..]));
  }
}
