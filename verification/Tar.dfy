/**
 The catar writer: a recursion over a flat stream of files with one file of push-back,
 proved to write exactly the archive of the tree that was delivered.
 */
module Tar {
  import opened Chunking
  import opened GoodbyeBst
  import opened Prelude
  import opened Format
  import opened Encoder
  import opened Catar

  /** A filesystem reader that lets one file be put back. */
  class FsBufReader {
    var fs: seq<File>
    var buf: Option<File>

    constructor (files: seq<File>)
      ensures Pending() == files && buf.None?
    {
      fs, buf := files, None;
    }

    ghost function Pending(): seq<File>
      reads this
    {
      (if buf.Some? then [buf.value] else []) + fs
    }

    /** None stands for io.EOF. */
    method Next() returns (f: Option<File>)
      modifies this
      ensures buf.None?
      ensures old(Pending()) == [] ==> f.None? && Pending() == []
      ensures old(Pending()) != [] ==> f == Some(old(Pending())[0]) && Pending() == old(Pending())[1..]
    {
      if buf.Some? {
        f, buf := buf, None;
      } else if fs == [] {
        f := None;
      } else {
        f, fs := Some(fs[0]), fs[1..];
      }
    }

    method Buffer(f: File)
      requires buf.None?
      modifies this`buf
      ensures Pending() == [f] + old(Pending())
    {
      buf := Some(f);
    }
  }

  function ParentOf(p: Path): Path {
    if p == [] then [] else p[..|p| - 1]
  }

  /** What follows a subtree in the stream does not lie below its path. */
  predicate Beyond(rest: seq<File>, path: Path) {
    rest == [] || !(path <= ParentOf(rest[0].path))
  }

  /** Goodbye items while a directory is being written: the offset is still the child's start. */
  function StartItems(ts: seq<Tree>, start: nat, sip: Name -> Word64): (items: seq<Item>)
    ensures |items| == |ts|
  {
    if ts == [] then [] else
      var n := |ChildBytes(ts[0], sip)|;
      [Item(start, n, sip(ts[0].name))] + StartItems(ts[1..], start + n, sip)
  }

  lemma {:induction false} FixedItems(ts: seq<Tree>, start: nat, total: nat, sip: Name -> Word64, i: nat)
    requires i < |ts|
    ensures var x := StartItems(ts, start, sip)[i];
            ItemsOf(ts, start, total, sip)[i] == x.(offset := if total >= x.offset then total - x.offset else 0)
    decreases ts
  {
    hide ChildBytes;
    if i > 0 { FixedItems(ts[1..], start + |ChildBytes(ts[0], sip)|, total, sip, i - 1); }
  }

  /** Turn starts into distances back from the goodbye element. */
  method FixOffsets(items: seq<Item>, n: nat, ghost ts: seq<Tree>, ghost start: nat, sip: Name -> Word64) returns (r: seq<Item>)
    requires items == StartItems(ts, start, sip)
    ensures r == ItemsOf(ts, start, n, sip)
  {
    hide StartItems, ItemsOf;
    r := items;
    for i := 0 to |items|
      invariant |r| == |items|
      invariant forall j :: i <= j < |r| ==> r[j] == items[j]
      invariant forall j :: 0 <= j < i ==> r[j] == ItemsOf(ts, start, n, sip)[j]
    {
      FixedItems(ts, start, n, sip, i);
      r := r[i := r[i].(offset := if n >= r[i].offset then n - r[i].offset else 0)];
    }
  }

  /** Write the entry and the attributes of a node. */
  method TarHead(enc: FormatEncoder, m: Meta) returns (n: nat)
    modifies enc
    ensures enc.out == old(enc.out) + EncodeAll(Head(m)) && n == |EncodeAll(Head(m))|
  {
    hide Format.Encode, SortedKeys;
    SortedKeysAre(m.xattrs.Keys);
    n := enc.Encode(Entry(TAR_FLAGS, m.mode, 0, m.uid, m.gid, m.mtime));
    var keys := SortedKeys(m.xattrs.Keys);
    ghost var written := Format.Encode(Entry(TAR_FLAGS, m.mode, 0, m.uid, m.gid, m.mtime));
    for i := 0 to |keys|
      invariant enc.out == old(enc.out) + written && n == |written|
      invariant EncodeAll(Head(m)) == written + EncodeAll(XAttrElems(keys[i..], m.xattrs))
    {
      var x := XAttr(keys[i] + [0] + m.xattrs[keys[i]]);
      var nn := enc.Encode(x);
      n := n + nn;
      written := written + Format.Encode(x);
    }
  }

  /** tar(): writes one node and everything below it, and returns the number of bytes written. */
  method TarNode(enc: FormatEncoder, fs: FsBufReader, f: File, sip: Name -> Word64, ghost t: Tree, ghost rest: seq<File>)
    returns (n: nat)
    requires WellFormed(t) && f == File(t.name, f.path, t.kind, t.meta)
    requires fs.Pending() == FilesAll(t.children, f.path) + rest && Beyond(rest, f.path)
    modifies enc, fs
    ensures enc.out == old(enc.out) + EncodeAll(Elems(t, sip)) && n == |EncodeAll(Elems(t, sip))|
    ensures fs.Pending() == rest
    decreases t, 2
  {
    hide Format.Encode, EncodeAll, Head, Elems, ChildElems, GoodbyeOf, Beyond;
    ElemsOf(t, sip);
    if f.kind.Unsupported? {
      return 0;
    }
    n := TarHead(enc, f.meta);
    var nn;
    match f.kind {
      case Dir => nn := TarDir(enc, fs, f.path, n, sip, t, rest);
      case Reg(size, data) => nn := enc.Encode(Payload(16 + size, data));
      case Link(target) => nn := enc.Encode(Symlink(target));
      case Dev(major, minor) => nn := enc.Encode(Device(major, minor));
    }
    n := n + nn;
  }

  /** Tar(): the archive of the tree that the filesystem reader delivers, root first. */
  method WriteArchive(fs: FsBufReader, sip: Name -> Word64, ghost t: Tree) returns (archive: seq<Byte>)
    requires WellFormed(t) && fs.Pending() == Files(t, [])
    modifies fs
    ensures archive == EncodeAll(Elems(t, sip)) && fs.Pending() == []
  {
    var enc := new FormatEncoder();
    var f := fs.Next();
    hide FilesAll, WellFormed, EncodeAll, Elems;
    var n := TarNode(enc, fs, f.value, sip, t, []);
    archive := enc.out;
  }

  /** The children of a directory and its goodbye element; `start` bytes of the directory are already written. */
  method TarDir(enc: FormatEncoder, fs: FsBufReader, dir: Path, start: nat, sip: Name -> Word64, ghost t: Tree, ghost rest: seq<File>)
    returns (n: nat)
    requires t.kind.Dir? && AllWellFormed(t.children) && start == |EncodeAll(Head(t.meta))|
    requires fs.Pending() == FilesAll(t.children, dir) + rest && Beyond(rest, dir)
    modifies enc, fs
    ensures enc.out == old(enc.out) + (EncodeAll(ChildElems(t.children, sip)) + Format.Encode(GoodbyeOf(t, sip)))
    ensures n == |EncodeAll(ChildElems(t.children, sip)) + Format.Encode(GoodbyeOf(t, sip))|
    ensures fs.Pending() == rest
    decreases t, 1
  {
    hide Format.Encode, EncodeAll, Head, ChildElems, FilesAll, AllWellFormed, Beyond, StartItems, ItemsOf, GoodbyeBst.Table;
    var pos, items := TarChildren(enc, fs, dir, start, sip, t, rest);
    items := FixOffsets(items, pos, t.children, start, sip);
    items := MakeGoodbyeBst(items);
    items := items + [Item(pos, 16 + |items| * 24 + 24, GOODBYE_TAIL)];
    assert Goodbye(items) == GoodbyeOf(t, sip);
    hide GoodbyeOf;
    n := enc.Encode(Goodbye(items));
    n := n + (pos - start);
  }

  /** The loop over the children: filename, recursion, goodbye item; a file from elsewhere is put back. */
  method TarChildren(enc: FormatEncoder, fs: FsBufReader, dir: Path, start: nat, sip: Name -> Word64, ghost t: Tree, ghost rest: seq<File>)
    returns (pos: nat, items: seq<Item>)
    requires AllWellFormed(t.children)
    requires fs.Pending() == FilesAll(t.children, dir) + rest && Beyond(rest, dir)
    modifies enc, fs
    ensures enc.out == old(enc.out) + EncodeAll(ChildElems(t.children, sip))
    ensures pos == start + |EncodeAll(ChildElems(t.children, sip))|
    ensures items == StartItems(t.children, start, sip)
    ensures fs.Pending() == rest
    decreases t, 0
  {
    hide Format.Encode, EncodeAll, Head, ChildElems, FilesAll, AllWellFormed, Beyond, StartItems, ChildBytes, Elems;
    pos, items := start, [];
    ghost var k, ts := 0, t.children;
    ghost var written: seq<Byte> := [];
    NoChildren(sip);
    while true
      invariant enc.out == old(enc.out) + written && pos == start + |written|
      invariant k <= |t.children| && ts == t.children[k..] && AllWellFormed(ts)
      invariant EncodeAll(ChildElems(t.children, sip)) == written + EncodeAll(ChildElems(ts, sip))
      invariant StartItems(t.children, start, sip) == items + StartItems(ts, pos, sip)
      invariant fs.Pending() == FilesAll(ts, dir) + rest
      decreases |ts|
    {
      NextInDir(ts, dir, rest);
      var f := fs.Next();
      if f.None? {
        break;
      }
      if ParentOf(f.value.path) != dir {
        fs.Buffer(f.value);
        break;
      }
      assert ts[0] == t.children[k];
      ChildStep(ts, sip);
      ItemStep(ts, pos, sip);
      var nn := enc.Encode(Filename(f.value.name));
      var mm := TarNode(enc, fs, f.value, sip, ts[0], FilesAll(ts[1..], dir) + rest);
      items := items + [Item(pos, nn + mm, sip(f.value.name))];
      pos := pos + nn + mm;
      written := written + ChildBytes(ts[0], sip);
      k, ts := k + 1, ts[1..];
    }
  }

  lemma ElemsOf(t: Tree, sip: Name -> Word64)
    ensures EncodeAll(Elems(t, sip)) ==
            match t.kind
            case Unsupported => []
            case Reg(n, data) => EncodeAll(Head(t.meta)) + Format.Encode(Payload(16 + n, data))
            case Link(target) => EncodeAll(Head(t.meta)) + Format.Encode(Symlink(target))
            case Dev(major, minor) => EncodeAll(Head(t.meta)) + Format.Encode(Device(major, minor))
            case Dir => EncodeAll(Head(t.meta)) + (EncodeAll(ChildElems(t.children, sip)) + Format.Encode(GoodbyeOf(t, sip)))
  {
    hide Format.Encode, Head, ChildElems, GoodbyeOf;
    var h := Head(t.meta);
    match t.kind
    case Unsupported =>
    case Reg(n, data) => Snoc(h, Payload(16 + n, data));
    case Link(target) => Snoc(h, Symlink(target));
    case Dev(major, minor) => Snoc(h, Device(major, minor));
    case Dir =>
      Snoc(h + ChildElems(t.children, sip), GoodbyeOf(t, sip));
      EncodeConcat(h, ChildElems(t.children, sip));
  }

  lemma Snoc(es: seq<Elem>, e: Elem)
    ensures EncodeAll(es + [e]) == EncodeAll(es) + Format.Encode(e)
  {
    EncodeConcat(es, [e]);
    EncodeOne(e);
  }

  lemma NoChildren(sip: Name -> Word64)
    ensures EncodeAll(ChildElems([], sip)) == [] && forall n :: StartItems([], n, sip) == []
  {
  }

  /** The next file is the first child left, and the end of the directory is where no child is left. */
  lemma NextInDir(ts: seq<Tree>, dir: Path, rest: seq<File>)
    requires Beyond(rest, dir)
    ensures ts == [] ==> FilesAll(ts, dir) + rest == rest && (rest != [] ==> ParentOf(rest[0].path) != dir)
    ensures ts != [] ==>
      var path := dir + [ts[0].name];
      && FilesAll(ts, dir) + rest == [File(ts[0].name, path, ts[0].kind, ts[0].meta)]
           + (FilesAll(ts[0].children, path) + (FilesAll(ts[1..], dir) + rest))
      && ParentOf(path) == dir
      && Beyond(FilesAll(ts[1..], dir) + rest, path)
  {
  }

  lemma ItemStep(ts: seq<Tree>, pos: nat, sip: Name -> Word64)
    requires ts != [] && AllWellFormed(ts)
    ensures WellFormed(ts[0]) && AllWellFormed(ts[1..])
    ensures StartItems(ts, pos, sip)
         == [Item(pos, |ChildBytes(ts[0], sip)|, sip(ts[0].name))] + StartItems(ts[1..], pos + |ChildBytes(ts[0], sip)|, sip)
  {
    hide ChildBytes, WellFormed;
  }

  lemma ChildStep(ts: seq<Tree>, sip: Name -> Word64)
    requires ts != []
    ensures ChildBytes(ts[0], sip) == Format.Encode(Filename(ts[0].name)) + EncodeAll(Elems(ts[0], sip))
    ensures EncodeAll(ChildElems(ts, sip)) == ChildBytes(ts[0], sip) + EncodeAll(ChildElems(ts[1..], sip))
  {
    var f, e, c := [Filename(ts[0].name)], Elems(ts[0], sip), ChildElems(ts[1..], sip);
    assert ChildElems(ts, sip) == f + e + c;
    hide Format.Encode, Elems, ChildElems, EncodeAll;
    EncodeConcat(f + e, c);
    EncodeConcat(f, e);
    EncodeOne(Filename(ts[0].name));
  }
}
