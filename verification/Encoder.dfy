/**
 The encoder of format elements: each kind has its own sequence of writes, and the number of
 bytes is added up along the way.
 */
module Encoder {
  import opened Prelude
  import opened Chunking
  import opened GoodbyeBst
  import opened Format

  /** binary.LittleEndian.PutUint64: eight bytes, the lowest first. */
  method PutUint64(v: nat) returns (b: seq<Byte>)
    ensures b == Le(v, 8)
  {
    hide Le;
    b := [];
    var rest := v;
    for i := 0 to 8
      invariant Le(v, 8) == b + Le(rest, 8 - i)
    {
      LeUnfold(rest, 8 - i);
      b := b + [rest % 256];
      rest := rest / 256;
    }
  }

  lemma LeUnfold(v: nat, n: nat)
    requires n > 0
    ensures Le(v, n) == [v % 256] + Le(v / 256, n - 1)
  {
  }

  lemma {:induction false} WordsSnoc(vs: seq<nat>, v: nat)
    ensures Words(vs + [v]) == Words(vs) + Le(v, 8)
  {
    hide Le;
    if vs == [] {
      assert [v][1..] == [];
    } else {
      WordsSnoc(vs[1..], v);
      assert (vs + [v])[1..] == vs[1..] + [v];
    }
  }

  lemma {:induction false} ItemBytesSnoc(items: seq<Item>, x: Item)
    ensures ItemBytes(items + [x]) == ItemBytes(items) + Words([x.offset, x.size, x.hash])
  {
    hide Words;
    if items == [] {
      assert [x][1..] == [];
    } else {
      ItemBytesSnoc(items[1..], x);
      assert (items + [x])[1..] == items[1..] + [x];
    }
  }

  lemma {:induction false} RowBytesSnoc(rows: seq<TableItem>, x: TableItem)
    ensures RowBytes(rows + [x]) == RowBytes(rows) + (Words([x.offset]) + x.id)
  {
    hide Words;
    if rows == [] {
      assert [x][1..] == [];
    } else {
      RowBytesSnoc(rows[1..], x);
      assert (rows + [x])[1..] == rows[1..] + [x];
    }
  }

  class FormatEncoder {
    var out: seq<Byte>

    constructor ()
      ensures out == []
    {
      out := [];
    }

    /** io.Copy into the stream. */
    method Write(b: seq<Byte>) returns (n: nat)
      modifies this
      ensures out == old(out) + b && n == |b|
    {
      out := out + b;
      n := |b|;
    }

    method WriteUint64(values: seq<nat>) returns (n: nat)
      modifies this
      ensures out == old(out) + Words(values) && n == |Words(values)|
    {
      hide Words;
      var b: seq<Byte> := [];
      NoWords([]);
      for i := 0 to |values|
        invariant b == Words(values[..i])
        invariant out == old(out)
      {
        var w := PutUint64(values[i]);
        WordsSnoc(values[..i], values[i]);
        assert values[..i + 1] == values[..i] + [values[i]];
        b := b + w;
      }
      assert values[..|values|] == values;
      n := Write(b);
    }

    /** A header and a string with its trailing zero byte. */
    method WriteString(size: nat, typ: nat, s: seq<Byte>) returns (n: nat)
      modifies this
      ensures out == old(out) + (Words([size, typ]) + (s + [0])) && n == |Words([size, typ]) + (s + [0])|
    {
      hide Words;
      n := WriteUint64([size, typ]);
      var n1 := Write(s + [0]);
      n := n + n1;
    }

    /** Two numbers in front of the string. */
    method WriteAcl(size: nat, typ: nat, id: nat, perms: nat, s: seq<Byte>) returns (n: nat)
      modifies this
      ensures out == old(out) + (Words([size, typ]) + (Words([id, perms]) + (s + [0])))
      ensures n == |Words([size, typ]) + (Words([id, perms]) + (s + [0]))|
    {
      hide Words;
      WordsAppend([size, typ], [id, perms]);
      assert [size, typ] + [id, perms] == [size, typ, id, perms];
      n := WriteUint64([size, typ, id, perms]);
      var n1 := Write(s + [0]);
      n := n + n1;
    }

    method WriteExtra(x: Extra) returns (n: nat)
      modifies this
      ensures out == old(out) + Format.Encode(Skip(x)) && n == |Format.Encode(Skip(x))|
    {
      hide Words;
      var size := 16 + |x.Body()|;
      match x {
        case User(s) => n := WriteString(size, USER, s);
        case Group(s) => n := WriteString(size, GROUP, s);
        case SELinux(s) => n := WriteString(size, SELINUX, s);
        case FCaps(b) =>
          n := WriteUint64([size, FCAPS]);
          var n1 := Write(b);
          n := n + n1;
        case ACLUser(id, perms, s) => n := WriteAcl(size, ACL_USER, id, perms, s);
        case ACLGroup(id, perms, s) => n := WriteAcl(size, ACL_GROUP, id, perms, s);
        case ACLGroupObj(perms) =>
          WordsAppend([size, ACL_GROUP_OBJ], [perms]);
          assert [size, ACL_GROUP_OBJ] + [perms] == [size, ACL_GROUP_OBJ, perms];
          n := WriteUint64([size, ACL_GROUP_OBJ, perms]);
        case ACLDefault(userObj, groupObj, other, mask) =>
          WordsAppend([size, ACL_DEFAULT], [userObj, groupObj, other, mask]);
          assert [size, ACL_DEFAULT] + [userObj, groupObj, other, mask] == [size, ACL_DEFAULT, userObj, groupObj, other, mask];
          n := WriteUint64([size, ACL_DEFAULT, userObj, groupObj, other, mask]);
      }
    }

    method WriteGoodbye(items: seq<Item>) returns (n: nat)
      modifies this
      ensures out == old(out) + Format.Encode(Goodbye(items)) && n == |Format.Encode(Goodbye(items))|
    {
      hide Words, ItemBytes;
      ghost var header := Words([16 + 24 * |items|, GOODBYE]);
      n := WriteUint64([16 + 24 * |items|, GOODBYE]);
      NoItems();
      for i := 0 to |items|
        invariant n == |header| + |ItemBytes(items[..i])|
        invariant out == old(out) + (header + ItemBytes(items[..i]))
      {
        var n1 := WriteUint64([items[i].offset, items[i].size, items[i].hash]);
        ItemBytesSnoc(items[..i], items[i]);
        assert items[..i + 1] == items[..i] + [items[i]];
        n := n + n1;
      }
      assert items[..|items|] == items;
    }

    /** The tail repeats the table's own length, which is what has been counted so far and the 40 bytes of the tail. */
    method WriteTable(rows: seq<TableItem>) returns (n: nat)
      modifies this
      ensures out == old(out) + Format.Encode(Table(rows)) && n == |Format.Encode(Table(rows))|
    {
      hide Words, RowBytes;
      ghost var header := Words([MAX_U64, TABLE]);
      n := WriteUint64([MAX_U64, TABLE]);
      NoItems();
      for i := 0 to |rows|
        invariant n == 16 + |RowBytes(rows[..i])|
        invariant out == old(out) + (header + RowBytes(rows[..i]))
      {
        var n1 := WriteUint64([rows[i].offset]);
        n := n + n1;
        var n2 := Write(rows[i].id);
        RowBytesSnoc(rows[..i], rows[i]);
        assert rows[..i + 1] == rows[..i] + [rows[i]];
        n := n + n2;
      }
      assert rows[..|rows|] == rows;
      ghost var tail := Words([0, 0, 48, (n + 40) % U64, TABLE_TAIL]);
      assert header + RowBytes(rows) + tail == header + (RowBytes(rows) + tail);
      var n3 := WriteUint64([0, 0, 48, (n + 40) % U64, TABLE_TAIL]);
      n := n + n3;
    }

    /** Appends the element and returns the number of bytes written. */
    method Encode(e: Elem) returns (n: nat)
      modifies this
      ensures out == old(out) + Format.Encode(e) && n == |Format.Encode(e)|
    {
      hide Words, ItemBytes, RowBytes;
      match e {
        case Entry(ff, mode, flags, uid, gid, mtime) =>
          WordsAppend([64, ENTRY], [ff, mode, flags, uid, gid, mtime]);
          assert [64, ENTRY] + [ff, mode, flags, uid, gid, mtime] == [64, ENTRY, ff, mode, flags, uid, gid, mtime];
          n := WriteUint64([64, ENTRY, ff, mode, flags, uid, gid, mtime]);
        case XAttr(s) => n := WriteString(e.Size(), XATTR, s);
        case Filename(s) => n := WriteString(e.Size(), FILENAME, s);
        case Symlink(s) => n := WriteString(e.Size(), SYMLINK, s);
        case Device(major, minor) =>
          WordsAppend([32, DEVICE], [major, minor]);
          assert [32, DEVICE] + [major, minor] == [32, DEVICE, major, minor];
          n := WriteUint64([32, DEVICE, major, minor]);
        case Payload(size, data) =>
          n := WriteUint64([size, PAYLOAD]);
          var n1 := Write(data);
          n := n + n1;
        case Goodbye(items) => n := WriteGoodbye(items);
        case Index(ff, min, avg, max) =>
          WordsAppend([48, INDEX], [ff, min, avg, max]);
          assert [48, INDEX] + [ff, min, avg, max] == [48, INDEX, ff, min, avg, max];
          n := WriteUint64([48, INDEX, ff, min, avg, max]);
        case Table(rows) => n := WriteTable(rows);
        case Skip(x) => n := WriteExtra(x);
      }
    }
  }

  lemma NoItems()
    ensures ItemBytes([]) == [] && RowBytes([]) == []
  {
  }

  lemma {:induction false} WordsAppend(a: seq<nat>, b: seq<nat>)
    ensures Words(a + b) == Words(a) + Words(b)
    decreases |b|
  {
    hide Words, Le;
    if b == [] {
      assert a + b == a;
      NoWords([]);
    } else {
      var k := |b| - 1;
      WordsAppend(a, b[..k]);
      WordsSnoc(a + b[..k], b[k]);
      WordsSnoc(b[..k], b[k]);
      assert a + b == (a + b[..k]) + [b[k]] && b == b[..k] + [b[k]];
    }
  }
}
