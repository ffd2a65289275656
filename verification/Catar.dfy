/**
 catar archives: the tree that is archived, the files a FilesystemReader delivers for it,
 and the elements and bytes that make up its archive.
 */
module Catar {
  import opened Chunking
  import opened GoodbyeBst
  import opened Prelude
  import opened Format

  type Name = seq<Byte>
  type Path = seq<Name>
  type Word64 = x: nat | x < U64

  datatype Meta = Meta(uid: nat, gid: nat, mode: nat, mtime: nat, xattrs: map<Name, seq<Byte>>)

  /** A regular file has a declared size beside its data; sockets and pipes are unsupported. */
  datatype Kind = Dir | Reg(size: nat, data: seq<Byte>) | Link(target: seq<Byte>) | Dev(major: nat, minor: nat) | Unsupported

  /** A filesystem object as the reader delivers it, one after the other. */
  datatype File = File(name: Name, path: Path, kind: Kind, meta: Meta)

  datatype Tree = Tree(name: Name, kind: Kind, meta: Meta, children: seq<Tree>)

  const TAR_FLAGS := 0xb000_0000_1000_1f22

  // ---------- depth-first pre-order ----------

  function Files(t: Tree, path: Path): seq<File>
    decreases t, 1
  {
    [File(t.name, path, t.kind, t.meta)] + FilesAll(t.children, path)
  }

  function FilesAll(ts: seq<Tree>, dir: Path): seq<File>
    decreases ts, 0
  {
    if ts == [] then [] else Files(ts[0], dir + [ts[0].name]) + FilesAll(ts[1..], dir)
  }

  /** Single-component names, NUL-free attribute names, payloads of the declared size, 64-bit numbers, children only in directories. */
  predicate WellFormed(t: Tree)
    decreases t, 1
  {
    && t.name != []
    && (!t.kind.Dir? ==> t.children == [])
    && (t.kind.Reg? ==> t.kind.size == |t.kind.data|)
    && (t.kind.Dev? ==> AllU64([t.kind.major, t.kind.minor]))
    && AllU64([t.meta.uid, t.meta.gid, t.meta.mode, t.meta.mtime])
    && (forall k :: k in t.meta.xattrs ==> 0 !in k)
    && AllWellFormed(t.children)
  }

  predicate AllWellFormed(ts: seq<Tree>)
    decreases ts, 0
  {
    ts == [] || (WellFormed(ts[0]) && AllWellFormed(ts[1..]))
  }

  // ---------- extended attributes in key order ----------

  predicate LexLeq(a: Name, b: Name) {
    a == [] || (b != [] && (a[0] < b[0] || (a[0] == b[0] && LexLeq(a[1..], b[1..]))))
  }

  lemma {:induction false} LexTotal(a: Name, b: Name)
    ensures LexLeq(a, b) || LexLeq(b, a)
    ensures LexLeq(a, b) && LexLeq(b, a) ==> a == b
    decreases |a|
  {
    if a != [] && b != [] {
      LexTotal(a[1..], b[1..]);
      assert a == [a[0]] + a[1..] && b == [b[0]] + b[1..];
    }
  }

  lemma {:induction false} LexTrans(a: Name, b: Name, c: Name)
    requires LexLeq(a, b) && LexLeq(b, c)
    ensures LexLeq(a, c)
    decreases |a|
  {
    if a != [] && a[0] == b[0] == c[0] {
      LexTrans(a[1..], b[1..], c[1..]);
    }
  }

  lemma {:induction false} LeastExists(s: set<Name>) returns (m: Name)
    requires s != {}
    ensures m in s && forall k :: k in s ==> LexLeq(m, k)
    decreases |s|
  {
    var x :| x in s;
    LexTotal(x, x);
    if s == {x} {
      m := x;
    } else {
      var y := LeastExists(s - {x});
      LexTotal(x, y);
      m := if LexLeq(x, y) then x else y;
      forall k | k in s
        ensures LexLeq(m, k)
      {
        if k != x { LexTrans(m, y, k); }
      }
    }
  }

  function Least(s: set<Name>): (m: Name)
    requires s != {}
    ensures m in s && forall k :: k in s ==> LexLeq(m, k)
  {
    assert exists m :: m in s && forall k :: k in s ==> LexLeq(m, k) by { var m := LeastExists(s); }
    assert forall a, b :: a in s && b in s && LexLeq(a, b) && LexLeq(b, a) ==> a == b by {
      forall a, b | a in s && b in s && LexLeq(a, b) && LexLeq(b, a) ensures a == b { LexTotal(a, b); }
    }
    var m :| m in s && forall k :: k in s ==> LexLeq(m, k);
    m
  }

  /** sort.Strings over the attribute names. */
  function SortedKeys(s: set<Name>): seq<Name>
    decreases |s|
  {
    if s == {} then [] else
      var m := Least(s);
      [m] + SortedKeys(s - {m})
  }

  function XAttrElems(keys: seq<Name>, xattrs: map<Name, seq<Byte>>): seq<Elem>
    requires forall i :: 0 <= i < |keys| ==> keys[i] in xattrs
  {
    if keys == [] then [] else [XAttr(keys[0] + [0] + xattrs[keys[0]])] + XAttrElems(keys[1..], xattrs)
  }

  lemma {:induction false} SortedKeysAre(s: set<Name>)
    ensures forall i :: 0 <= i < |SortedKeys(s)| ==> SortedKeys(s)[i] in s
    ensures forall k :: k in s ==> k in SortedKeys(s)
    decreases |s|
  {
    if s != {} {
      hide Least;
      SortedKeysAre(s - {Least(s)});
    }
  }

  /** The entry of a node followed by its attributes in key order. */
  function Head(m: Meta): seq<Elem> {
    SortedKeysAre(m.xattrs.Keys);
    [Entry(TAR_FLAGS, m.mode, 0, m.uid, m.gid, m.mtime)] + XAttrElems(SortedKeys(m.xattrs.Keys), m.xattrs)
  }

  /** Byte order: a proper prefix comes first, and so does the smaller byte where two names first differ. */
  ghost predicate Before(a: Name, b: Name) {
    exists n: nat :: FirstDifference(a, b, n)
  }

  predicate FirstDifference(a: Name, b: Name, n: nat) {
    && n <= |a| && n < |b| && a[..n] == b[..n]
    && (n < |a| ==> a[n] < b[n])
  }

  lemma {:induction false} LexIs(a: Name, b: Name)
    requires LexLeq(a, b) && a != b
    ensures Before(a, b)
    decreases |a|
  {
    if a == [] || a[0] < b[0] {
      assert FirstDifference(a, b, 0);
    } else {
      assert a == [a[0]] + a[1..] && b == [b[0]] + b[1..];
      LexIs(a[1..], b[1..]);
      var n: nat :| FirstDifference(a[1..], b[1..], n);
      assert a[..n + 1] == [a[0]] + a[1..][..n] && b[..n + 1] == [b[0]] + b[1..][..n];
      assert FirstDifference(a, b, n + 1);
    }
  }

  /** The sorted names are the given ones, each once, in ascending byte order. */
  lemma {:induction false} KeysAscend(s: set<Name>)
    ensures multiset(SortedKeys(s)) == multiset(s) && |SortedKeys(s)| == |s|
    ensures forall i, j :: 0 <= i < j < |SortedKeys(s)| ==> Before(SortedKeys(s)[i], SortedKeys(s)[j])
    decreases |s|
  {
    hide LexLeq, Before;
    if s != {} {
      var m := Least(s);
      hide Least;
      var rest := SortedKeys(s - {m});
      KeysAscend(s - {m});
      assert multiset(s) == multiset(s - {m}) + multiset{m};
      forall j | 0 <= j < |rest|
        ensures Before(m, rest[j])
      {
        assert rest[j] in multiset(rest);
        LexIs(m, rest[j]);
      }
    }
  }

  lemma {:induction false} XAttrElemsAre(keys: seq<Name>, xattrs: map<Name, seq<Byte>>)
    requires forall i :: 0 <= i < |keys| ==> keys[i] in xattrs
    ensures |XAttrElems(keys, xattrs)| == |keys|
    ensures forall i :: 0 <= i < |keys| ==> XAttrElems(keys, xattrs)[i] == XAttr(keys[i] + [0] + xattrs[keys[i]])
    decreases |keys|
  {
    if keys != [] { XAttrElemsAre(keys[1..], xattrs); }
  }

  /** What a node starts with: its entry, then one element per attribute, in ascending byte order of the names. */
  lemma HeadIs(m: Meta) returns (keys: seq<Name>)
    ensures multiset(keys) == multiset(m.xattrs.Keys) && |keys| == |m.xattrs.Keys|
    ensures forall i, j :: 0 <= i < j < |keys| ==> Before(keys[i], keys[j])
    ensures |Head(m)| == 1 + |keys| && Head(m)[0] == Entry(TAR_FLAGS, m.mode, 0, m.uid, m.gid, m.mtime)
    ensures forall i :: 0 <= i < |keys| ==> keys[i] in m.xattrs && Head(m)[1 + i] == XAttr(keys[i] + [0] + m.xattrs[keys[i]])
  {
    hide Before, SortedKeys, XAttrElems;
    keys := SortedKeys(m.xattrs.Keys);
    KeysAscend(m.xattrs.Keys);
    SortedKeysAre(m.xattrs.Keys);
    XAttrElemsAre(keys, m.xattrs);
    var es := XAttrElems(keys, m.xattrs);
    var head := [Entry(TAR_FLAGS, m.mode, 0, m.uid, m.gid, m.mtime)] + es;
    assert Head(m) == head;
    hide Head, XAttrElems, SortedKeys;
    forall i | 0 <= i < |keys|
      ensures keys[i] in m.xattrs && head[1 + i] == XAttr(keys[i] + [0] + m.xattrs[keys[i]])
    {
      assert head[1 + i] == es[i];
    }
  }

  // ---------- bytes ----------

  function EncodeAll(es: seq<Elem>): seq<Byte> {
    if es == [] then [] else Encode(es[0]) + EncodeAll(es[1..])
  }

  lemma {:induction false} EncodeConcat(es: seq<Elem>, fs: seq<Elem>)
    ensures EncodeAll(es + fs) == EncodeAll(es) + EncodeAll(fs)
    decreases |es|
  {
    hide Encode;
    if es == [] {
      assert es + fs == fs;
    } else {
      assert (es + fs)[1..] == es[1..] + fs;
      EncodeConcat(es[1..], fs);
    }
  }

  lemma EncodeOne(e: Elem)
    ensures EncodeAll([e]) == Encode(e)
  {
    hide Encode;
    assert [e][1..] == [];
  }

  // ---------- elements of a tree ----------

  /** The elements of one node, without the filename that precedes it in its directory. */
  function Elems(t: Tree, sip: Name -> Word64): seq<Elem>
    decreases t, 1
  {
    match t.kind
    case Unsupported => []
    case Reg(n, data) => Head(t.meta) + [Payload(16 + n, data)]
    case Link(target) => Head(t.meta) + [Symlink(target)]
    case Dev(major, minor) => Head(t.meta) + [Device(major, minor)]
    case Dir => Head(t.meta) + ChildElems(t.children, sip) + [GoodbyeOf(t, sip)]
  }

  function ChildElems(ts: seq<Tree>, sip: Name -> Word64): seq<Elem>
    decreases ts, 0
  {
    if ts == [] then [] else [Filename(ts[0].name)] + Elems(ts[0], sip) + ChildElems(ts[1..], sip)
  }

  /** Bytes of a child from its filename element on. */
  function ChildBytes(t: Tree, sip: Name -> Word64): seq<Byte>
    decreases t, 2
  {
    EncodeAll([Filename(t.name)] + Elems(t, sip))
  }

  /** One item per child in order: distance back to the goodbye, length, hash of the name. */
  function ItemsOf(ts: seq<Tree>, start: nat, total: nat, sip: Name -> Word64): (items: seq<Item>)
    ensures |items| == |ts|
    decreases ts, 0
  {
    if ts == [] then [] else
      var n := |ChildBytes(ts[0], sip)|;
      [Item(if total >= start then total - start else 0, n, sip(ts[0].name))] + ItemsOf(ts[1..], start + n, total, sip)
  }

  /** The goodbye element of a directory: the items as a search tree, then the tail item. */
  function GoodbyeOf(t: Tree, sip: Name -> Word64): (e: Elem)
    ensures e.Goodbye?
    decreases t, 0
  {
    var start := |EncodeAll(Head(t.meta))|;
    var total := start + |EncodeAll(ChildElems(t.children, sip))|;
    var table := GoodbyeBst.Table(ItemsOf(t.children, start, total, sip));
    Goodbye(table + [Item(total, 16 + |table| * 24 + 24, GOODBYE_TAIL)])
  }
}
