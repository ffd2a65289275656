/**
 The two laws of catar archives: reading an archive gives back the archived tree, and
 the goodbye tables locate every child by byte offset.
 */
module ArchiveProof {
  import opened Chunking
  import opened GoodbyeBst
  import opened Prelude
  import opened Format
  import opened Catar
  import opened Tar
  import opened Archive

  // ---------- every element of an archive is readable ----------

  ghost predicate AllValid(es: seq<Elem>) {
    forall i :: 0 <= i < |es| ==> es[i].Valid()
  }

  lemma {:induction false} PartOf(es: seq<Elem>, i: nat)
    requires i < |es|
    ensures |Encode(es[i])| <= |EncodeAll(es)|
    decreases |es|
  {
    hide Encode;
    if i > 0 { PartOf(es[1..], i - 1); }
  }

  lemma EncodedLength(e: Elem)
    ensures |Encode(e)| == 16 + |e.Body()|
  {
    hide Elem.Body;
  }

  lemma {:induction false} XAttrsValid(keys: seq<Name>, m: map<Name, seq<Byte>>)
    requires forall i :: 0 <= i < |keys| ==> keys[i] in m
    requires |EncodeAll(XAttrElems(keys, m))| < U64 / 2
    ensures AllValid(XAttrElems(keys, m))
  {
    var es := XAttrElems(keys, m);
    forall i | 0 <= i < |es|
      ensures es[i].Valid()
    {
      PartOf(es, i);
      XAttrShape(keys, m, i);
      EncodedLength(es[i]);
    }
  }

  lemma {:induction false} XAttrShape(keys: seq<Name>, m: map<Name, seq<Byte>>, i: nat)
    requires forall i :: 0 <= i < |keys| ==> keys[i] in m
    requires i < |XAttrElems(keys, m)|
    ensures XAttrElems(keys, m)[i].XAttr?
    decreases |keys|
  {
    if i > 0 { XAttrShape(keys[1..], m, i - 1); }
  }

  lemma HeadValid(m: Meta)
    requires AllU64([m.uid, m.gid, m.mode, m.mtime]) && |EncodeAll(Head(m))| < U64 / 2
    ensures AllValid(Head(m))
  {
    hide Encode, SortedKeys, XAttrElems;
    SortedKeysAre(m.xattrs.Keys);
    var e, xs := Entry(TAR_FLAGS, m.mode, 0, m.uid, m.gid, m.mtime), XAttrElems(SortedKeys(m.xattrs.Keys), m.xattrs);
    EncodeConcat([e], xs);
    hide EncodeAll;
    XAttrsValid(SortedKeys(m.xattrs.Keys), m.xattrs);
    assert e.Valid() by {
      var n := [m.uid, m.gid, m.mode, m.mtime];
      assert n[0] < U64 && n[1] < U64 && n[2] < U64 && n[3] < U64;
    }
  }

  /** Items stay within the directory: distances and lengths are below its total size. */
  lemma {:induction false} ItemsBounded(ts: seq<Tree>, start: nat, total: nat, sip: Name -> Word64, i: nat)
    requires i < |ts| && total == start + |EncodeAll(ChildElems(ts, sip))|
    ensures ItemsOf(ts, start, total, sip)[i].offset <= total
    ensures ItemsOf(ts, start, total, sip)[i].size <= total
    ensures ItemsOf(ts, start, total, sip)[i].hash < U64
    decreases ts
  {
    hide ChildBytes, EncodeAll, ChildElems, Elems, ItemsOf;
    ChildStep(ts, sip);
    ItemsUnfold(ts, start, total, sip);
    if i > 0 { ItemsBounded(ts[1..], start + |ChildBytes(ts[0], sip)|, total, sip, i - 1); }
  }

  lemma ItemsUnfold(ts: seq<Tree>, start: nat, total: nat, sip: Name -> Word64)
    requires ts != []
    ensures var n := |ChildBytes(ts[0], sip)|;
            ItemsOf(ts, start, total, sip)
            == [Item(if total >= start then total - start else 0, n, sip(ts[0].name))] + ItemsOf(ts[1..], start + n, total, sip)
  {
    hide ChildBytes;
  }

  lemma TableValid(items: seq<Item>)
    requires forall j :: 0 <= j < |items| ==> ItemValid(items[j])
    ensures forall i :: 0 <= i < |GoodbyeBst.Table(items)| ==> ItemValid(GoodbyeBst.Table(items)[i])
  {
    hide GoodbyeBst.Table, ItemValid;
    var table := GoodbyeBst.Table(items);
    TableIsBst(items);
    forall i | 0 <= i < |table|
      ensures ItemValid(table[i])
    {
      assert table[i] in multiset(items);
    }
  }

  /** Offsets, sizes and hashes of a directory's items fit into 64 bits. */
  lemma DirItemsValid(ts: seq<Tree>, start: nat, total: nat, sip: Name -> Word64)
    requires total == start + |EncodeAll(ChildElems(ts, sip))| && total < U64
    ensures forall j :: 0 <= j < |ts| ==> ItemValid(ItemsOf(ts, start, total, sip)[j])
  {
    hide EncodeAll, ChildElems, ItemsOf;
    forall j | 0 <= j < |ts|
      ensures ItemValid(ItemsOf(ts, start, total, sip)[j])
    {
      ItemsBounded(ts, start, total, sip, j);
    }
  }

  lemma GoodbyeValid(t: Tree, sip: Name -> Word64)
    requires t.kind.Dir? && |EncodeAll(Elems(t, sip))| < U64 / 2
    ensures GoodbyeOf(t, sip).Valid()
  {
    hide Head, EncodeAll, ChildElems, ItemsOf, GoodbyeBst.Table, Elems, Encode, ItemBytes;
    ElemsOf(t, sip);
    var start := |EncodeAll(Head(t.meta))|;
    var total := start + |EncodeAll(ChildElems(t.children, sip))|;
    EncodedLength(GoodbyeOf(t, sip));
    DirItemsValid(t.children, start, total, sip);
    TableValid(ItemsOf(t.children, start, total, sip));
  }

  lemma {:induction false} TreeValid(t: Tree, sip: Name -> Word64)
    requires WellFormed(t) && |EncodeAll(Elems(t, sip))| < U64 / 2
    ensures AllValid(Elems(t, sip))
    decreases t, 1
  {
    hide Encode, EncodeAll, Head, ChildElems, GoodbyeOf, AllWellFormed;
    ElemsOf(t, sip);
    if t.kind.Dir? {
      GoodbyeValid(t, sip);
      HeadValid(t.meta);
      ChildrenValid(t.children, sip);
    } else if !t.kind.Unsupported? {
      ContentValid(t);
      HeadValid(t.meta);
    }
  }

  lemma ContentValid(t: Tree)
    requires WellFormed(t) && !t.kind.Dir? && !t.kind.Unsupported? && |Encode(Content(t.kind))| < U64 / 2
    ensures Content(t.kind).Valid()
  {
    EncodedLength(Content(t.kind));
    hide AllWellFormed, Encode;
  }

  lemma {:induction false} ChildrenValid(ts: seq<Tree>, sip: Name -> Word64)
    requires AllWellFormed(ts) && |EncodeAll(ChildElems(ts, sip))| < U64 / 2
    ensures AllValid(ChildElems(ts, sip))
    decreases ts, 0
  {
    hide Encode, EncodeAll, Elems, ChildBytes, WellFormed;
    if ts != [] {
      ChildStep(ts, sip);
      EncodedLength(Filename(ts[0].name));
      TreeValid(ts[0], sip);
      ChildrenValid(ts[1..], sip);
    }
  }

  // ---------- the round trip ----------

  function Prepend(ns: seq<Node>, o: Option<seq<Node>>): Option<seq<Node>> {
    match o case None => None case Some(more) => Some(ns + more)
  }

  lemma PrependNil(o: Option<seq<Node>>)
    ensures Prepend([], o) == o
  {
    if o.Some? { assert [] + o.value == o.value; }
  }

  lemma PrependJoin(a: seq<Node>, b: seq<Node>, o: Option<seq<Node>>)
    ensures Prepend(a, Prepend(b, o)) == Prepend(a + b, o)
  {
    if o.Some? { assert a + (b + o.value) == (a + b) + o.value; }
  }

  lemma ConsTail(x: Elem, a: seq<Elem>, b: seq<Elem>)
    ensures ([x] + a + b)[1..] == a + b
  {
  }

  lemma SafeHead(es: seq<Elem>)
    requires es != [] && NameSafe(es)
    ensures es[0].Filename? || es[0].Goodbye?
  {
  }

  lemma ReadGoodbye(e: Elem, rest: seq<Elem>, dir: Path, name: Name)
    requires e.Goodbye?
    ensures ReadAll([e] + rest, true, dir + [name]) == ReadAll(rest, true, dir)
  {
    var es := [e] + rest;
    assert es[1..] == rest && (dir + [name])[..|dir|] == dir;
  }

  lemma ReadFound(es: seq<Elem>, dir: Path, node: Node, rest: seq<Elem>, dir': Path)
    requires Scan(es, true, dir, FRESH) == Found(node, rest, dir')
    ensures ReadAll(es, true, dir) == Prepend([node], ReadAll(rest, true, dir'))
  {
    hide Scan;
  }

  lemma ScanDir(t: Tree, sip: Name -> Word64, rest: seq<Elem>, dir: Path, name: Name)
    requires t.kind.Dir? && (forall k :: k in t.meta.xattrs ==> 0 !in k)
    ensures var inner := ChildElems(t.children, sip) + ([GoodbyeOf(t, sip)] + rest);
            Scan(Elems(t, sip) + rest, true, dir, FRESH.(name := name))
            == Found(Node(Join(dir, name), Dir, t.meta), inner, Join(dir, name))
  {
    var g := GoodbyeOf(t, sip);
    var inner := ChildElems(t.children, sip) + ([g] + rest);
    assert Elems(t, sip) + rest == Head(t.meta) + inner;
    assert inner != [] && (inner[0].Filename? || inner[0].Goodbye?);
    hide Head, ChildElems, GoodbyeOf, Elems;
    ScanHead(t.meta, inner, dir, name);
    ScanReturn(inner, dir, t.meta, name);
  }

  lemma ScanReturn(es: seq<Elem>, dir: Path, m: Meta, name: Name)
    requires es != [] && (es[0].Filename? || es[0].Goodbye?)
    ensures Scan(es, true, dir, HeadAcc(m, name)) == Found(Node(Join(dir, name), Dir, m), es, Join(dir, name))
  {
  }

  /** One named node: its nodes come out first, then what follows is read in the same directory. */
  lemma {:induction false} ReadNode(t: Tree, sip: Name -> Word64, rest: seq<Elem>, dir: Path)
    requires WellFormed(t) && AllValid(Elems(t, sip)) && rest != [] && NameSafe(rest)
    ensures ReadAll([Filename(t.name)] + Elems(t, sip) + rest, true, dir)
         == Prepend(Delivered(Files(t, dir + [t.name])), ReadAll(rest, true, dir))
    decreases t, 1
  {
    hide Scan, ReadAll, Elems, Delivered, Files, AllValid, NameSafe, Prepend, AllWellFormed;
    var es, path := [Filename(t.name)] + Elems(t, sip) + rest, dir + [t.name];
    match t.kind
    case Unsupported => ReadUnsupported(t, sip, rest, dir);
    case Dir => ReadDir(t, sip, rest, dir);
    case _ =>
      LeafSmall(t, sip);
      SafeHead(rest);
      ScanLeaf(t, sip, rest, dir);
      ReadFound(es, dir, Node(path, t.kind, t.meta), rest, dir);
      LeafNodes(t, path);
  }

  lemma LeafSmall(t: Tree, sip: Name -> Word64)
    requires WellFormed(t) && AllValid(Elems(t, sip))
    ensures t.kind.Reg? ==> t.kind.size < U64
  {
    if t.kind.Reg? {
      var es := Elems(t, sip);
      assert es[|es| - 1].Valid();
    }
  }

  lemma LeafNodes(t: Tree, path: Path)
    requires t.children == [] && !t.kind.Unsupported?
    ensures Delivered(Files(t, path)) == [Node(path, t.kind, t.meta)]
  {
    var f := File(t.name, path, t.kind, t.meta);
    assert Files(t, path) == [f] && [f][1..] == [];
  }

  lemma ReadUnsupported(t: Tree, sip: Name -> Word64, rest: seq<Elem>, dir: Path)
    requires WellFormed(t) && t.kind.Unsupported? && NameSafe(rest)
    ensures ReadAll([Filename(t.name)] + Elems(t, sip) + rest, true, dir)
         == Prepend(Delivered(Files(t, dir + [t.name])), ReadAll(rest, true, dir))
  {
    var es, path := [Filename(t.name)] + Elems(t, sip) + rest, dir + [t.name];
    assert es[0] == Filename(t.name) && es[1..] == rest;
    var f := File(t.name, path, t.kind, t.meta);
    assert Files(t, path) == [f] && [f][1..] == [];
    assert Delivered(Files(t, path)) == [];
    ScanName(t.name, rest, dir, es);
    StaleName(rest, dir, t.name);
    hide Scan, Delivered, Elems, NameSafe;
    assert ReadAll(es, true, dir) == ReadAll(rest, true, dir);
    PrependNil(ReadAll(rest, true, dir));
  }

  lemma {:induction false} ReadDir(t: Tree, sip: Name -> Word64, rest: seq<Elem>, dir: Path)
    requires WellFormed(t) && t.kind.Dir? && AllValid(Elems(t, sip)) && NameSafe(rest)
    ensures ReadAll([Filename(t.name)] + Elems(t, sip) + rest, true, dir)
         == Prepend(Delivered(Files(t, dir + [t.name])), ReadAll(rest, true, dir))
    decreases t, 0
  {
    hide Scan, Delivered, Elems, ChildElems, GoodbyeOf, NameSafe, AllValid, ReadAll, Prepend, Files, FilesAll, AllWellFormed;
    var es, path, g := [Filename(t.name)] + Elems(t, sip) + rest, dir + [t.name], GoodbyeOf(t, sip);
    ConsTail(Filename(t.name), Elems(t, sip), rest);
    ChildrenAreValid(t, sip);
    DirNodes(t, path);
    GoodbyeSafe(g, rest);
    ScanName(t.name, Elems(t, sip) + rest, dir, es);
    ScanDir(t, sip, rest, dir, t.name);
    var node, inner := Node(path, Dir, t.meta), ChildElems(t.children, sip) + ([g] + rest);
    ReadFound(es, dir, node, inner, path);
    ReadChildren(t.children, sip, [g] + rest, path);
    ReadGoodbye(g, rest, dir, t.name);
    PrependJoin([node], Delivered(FilesAll(t.children, path)), ReadAll(rest, true, dir));
  }

  lemma GoodbyeSafe(g: Elem, rest: seq<Elem>)
    requires g.Goodbye? && NameSafe(rest)
    ensures NameSafe([g] + rest)
  {
    assert ([g] + rest)[1..] == rest;
  }

  lemma ChildrenAreValid(t: Tree, sip: Name -> Word64)
    requires t.kind.Dir? && AllValid(Elems(t, sip))
    ensures AllValid(ChildElems(t.children, sip))
  {
    var h, c, es := Head(t.meta), ChildElems(t.children, sip), Elems(t, sip);
    hide Head, ChildElems, GoodbyeOf;
    forall i | 0 <= i < |c|
      ensures c[i].Valid()
    {
      assert es[|h| + i] == c[i];
    }
  }

  lemma DirNodes(t: Tree, path: Path)
    requires t.kind.Dir?
    ensures Delivered(Files(t, path)) == [Node(path, Dir, t.meta)] + Delivered(FilesAll(t.children, path))
  {
    var f := File(t.name, path, t.kind, t.meta);
    assert Files(t, path) == [f] + FilesAll(t.children, path);
    assert ([f] + FilesAll(t.children, path))[1..] == FilesAll(t.children, path);
    hide FilesAll;
  }

  lemma {:induction false} ReadChildren(ts: seq<Tree>, sip: Name -> Word64, rest: seq<Elem>, dir: Path)
    requires AllWellFormed(ts) && AllValid(ChildElems(ts, sip)) && rest != [] && NameSafe(rest)
    ensures ReadAll(ChildElems(ts, sip) + rest, true, dir)
         == Prepend(Delivered(FilesAll(ts, dir)), ReadAll(rest, true, dir))
    decreases ts, 0
  {
    if ts == [] {
      assert ChildElems(ts, sip) + rest == rest;
      assert Delivered(FilesAll(ts, dir)) == [];
      PrependNil(ReadAll(rest, true, dir));
    } else {
      var f, e, c := [Filename(ts[0].name)], Elems(ts[0], sip), ChildElems(ts[1..], sip);
      assert ChildElems(ts, sip) == f + e + c;
      assert ChildElems(ts, sip) + rest == f + e + (c + rest);
      FirstIsSafe(ts[1..], sip, rest);
      PartsValid(f, e, c);
      assert FilesAll(ts, dir) == Files(ts[0], dir + [ts[0].name]) + FilesAll(ts[1..], dir);
      hide ReadAll, NameSafe, Delivered, Elems, ChildElems, Files, FilesAll, AllValid, Prepend;
      ReadNode(ts[0], sip, c + rest, dir);
      ReadChildren(ts[1..], sip, rest, dir);
      var a, b := Files(ts[0], dir + [ts[0].name]), FilesAll(ts[1..], dir);
      DeliveredConcat(a, b);
      PrependJoin(Delivered(a), Delivered(b), ReadAll(rest, true, dir));
    }
  }

  lemma FirstIsSafe(ts: seq<Tree>, sip: Name -> Word64, rest: seq<Elem>)
    requires rest != [] && NameSafe(rest)
    ensures ChildElems(ts, sip) + rest != [] && NameSafe(ChildElems(ts, sip) + rest)
  {
    if ts == [] { assert ChildElems(ts, sip) + rest == rest; }
  }

  lemma PartsValid(f: seq<Elem>, e: seq<Elem>, c: seq<Elem>)
    requires AllValid(f + e + c)
    ensures AllValid(e) && AllValid(c)
  {
    var s := f + e + c;
    assert forall i :: 0 <= i < |e| ==> e[i] == s[|f| + i];
    assert forall i :: 0 <= i < |c| ==> c[i] == s[|f| + |e| + i];
  }

  /**
   Reading the archive of a tree rooted at a directory yields its supported nodes in
   pre-order, with the same relative paths, metadata, attributes and contents.
   */
  lemma ArchiveRoundTrip(t: Tree, sip: Name -> Word64)
    requires WellFormed(t) && t.kind.Dir? && |EncodeAll(Elems(t, sip))| < U64 / 2
    ensures ReadArchive(EncodeAll(Elems(t, sip))) == Some(Delivered(Files(t, [])))
  {
    hide Scan, Delivered, Elems, ChildElems, GoodbyeOf, NameSafe, ReadAll, Parse, EncodeAll, Prepend, Files, FilesAll, AllWellFormed;
    var es, g := Elems(t, sip), GoodbyeOf(t, sip);
    TreeValid(t, sip);
    ParseEncoded(es);
    hide AllValid;
    ChildrenAreValid(t, sip);
    DirNodes(t, []);
    LastGoodbye(g);
    ScanDir(t, sip, [], [], []);
    assert es + [] == es && [g] + [] == [g];
    assert FRESH.(name := []) == FRESH;
    ReadFound(es, [], Node([], Dir, t.meta), ChildElems(t.children, sip) + [g], []);
    ReadChildren(t.children, sip, [g], []);
    RootNodes(Node([], Dir, t.meta), Delivered(FilesAll(t.children, [])));
  }

  lemma RootNodes(node: Node, nodes: seq<Node>)
    ensures Prepend([node], Prepend(nodes, Some([]))) == Some([node] + nodes)
  {
    assert nodes + [] == nodes;
  }

  lemma LastGoodbye(g: Elem)
    requires g.Goodbye?
    ensures ReadAll([g], true, []) == Some([]) && NameSafe([g])
  {
    assert [g][1..] == [];
    assert Scan([g], true, [], FRESH) == Scan([], true, [], FRESH);
  }

  // ---------- goodbye offsets ----------

  /** Where the goodbye element starts in the bytes of a directory. */
  function GoodbyeStart(t: Tree, sip: Name -> Word64): nat {
    |EncodeAll(Head(t.meta))| + |EncodeAll(ChildElems(t.children, sip))|
  }

  /** Counted back from the goodbye element, x spans exactly the bytes of child i and carries the hash of its name. */
  ghost predicate Locates(t: Tree, sip: Name -> Word64, x: Item, i: nat) {
    var b, g := EncodeAll(Elems(t, sip)), GoodbyeStart(t, sip);
    && i < |t.children|
    && x.hash == sip(t.children[i].name)
    && x.offset <= g && g - x.offset + x.size <= |b|
    && b[g - x.offset..g - x.offset + x.size] == ChildBytes(t.children[i], sip)
  }

  /** Counted back from `total`, the item spans the bytes c of b. */
  predicate Spans(b: seq<Byte>, total: nat, x: Item, c: seq<Byte>) {
    x.offset <= total && total - x.offset + x.size <= |b| && b[total - x.offset..total - x.offset + x.size] == c
  }

  lemma SpansFirst(pre: seq<Byte>, c: seq<Byte>, rest: seq<Byte>, total: nat, x: Item)
    requires total == |pre| + |c| + |rest| && x.offset == total - |pre| && x.size == |c|
    ensures Spans(pre + (c + rest), total, x, c)
  {
    var b := pre + (c + rest);
    assert b[|pre|..|pre| + |c|] == c;
  }

  lemma Regroup(pre: seq<Byte>, c: seq<Byte>, rest: seq<Byte>)
    ensures pre + (c + rest) == (pre + c) + rest
  {
  }

  lemma {:induction false} ItemSpans(ts: seq<Tree>, start: nat, total: nat, sip: Name -> Word64, pre: seq<Byte>, i: nat)
    requires i < |ts| && |pre| == start && total == start + |EncodeAll(ChildElems(ts, sip))|
    ensures var x := ItemsOf(ts, start, total, sip)[i];
            x.hash == sip(ts[i].name) && Spans(pre + EncodeAll(ChildElems(ts, sip)), total, x, ChildBytes(ts[i], sip))
    decreases ts
  {
    hide ChildBytes, EncodeAll, ChildElems, Elems, ItemsOf, Spans;
    ChildStep(ts, sip);
    ItemsUnfold(ts, start, total, sip);
    var c, rest := ChildBytes(ts[0], sip), EncodeAll(ChildElems(ts[1..], sip));
    if i == 0 {
      SpansFirst(pre, c, rest, total, ItemsOf(ts, start, total, sip)[0]);
    } else {
      Regroup(pre, c, rest);
      ItemSpans(ts[1..], start + |c|, total, sip, pre + c, i - 1);
    }
  }

  /** The item that tar computes for child i locates child i in the bytes of the directory. */
  lemma ItemLocates(t: Tree, sip: Name -> Word64, i: nat)
    requires t.kind.Dir? && i < |t.children|
    ensures Locates(t, sip, ItemsOf(t.children, |EncodeAll(Head(t.meta))|, GoodbyeStart(t, sip), sip)[i], i)
  {
    hide ChildBytes, EncodeAll, ChildElems, Elems, ItemsOf, Head, GoodbyeOf, Encode;
    ElemsOf(t, sip);
    var h, c, g := EncodeAll(Head(t.meta)), EncodeAll(ChildElems(t.children, sip)), Encode(GoodbyeOf(t, sip));
    ItemSpans(t.children, |h|, GoodbyeStart(t, sip), sip, h, i);
    var x := ItemsOf(t.children, |h|, GoodbyeStart(t, sip), sip)[i];
    var p := GoodbyeStart(t, sip) - x.offset;
    assert (h + (c + g))[p..p + x.size] == (h + c)[p..p + x.size];
  }

  lemma GoodbyeItems(t: Tree, sip: Name -> Word64)
    requires t.kind.Dir?
    ensures GoodbyeOf(t, sip).items
         == GoodbyeBst.Table(ItemsOf(t.children, |EncodeAll(Head(t.meta))|, GoodbyeStart(t, sip), sip))
            + [Item(GoodbyeStart(t, sip), 16 + |t.children| * 24 + 24, GOODBYE_TAIL)]
    ensures |GoodbyeOf(t, sip).items| == |t.children| + 1
  {
    hide EncodeAll, ChildElems, ItemsOf, Head, GoodbyeBst.Table, InOrder, Sort, Sorted;
    var start, total := |EncodeAll(Head(t.meta))|, GoodbyeStart(t, sip);
    var items := ItemsOf(t.children, start, total, sip);
    var table := GoodbyeBst.Table(items);
    TableIsBst(items);
    assert GoodbyeOf(t, sip) == Goodbye(table + [Item(total, 16 + |table| * 24 + 24, GOODBYE_TAIL)]);
    hide GoodbyeOf, GoodbyeStart;
  }

  /** Every goodbye item but the last locates a child of the directory. */
  lemma EveryItemLocates(t: Tree, sip: Name -> Word64, k: nat) returns (i: nat)
    requires t.kind.Dir? && k < |t.children|
    ensures |GoodbyeOf(t, sip).items| == |t.children| + 1
    ensures Locates(t, sip, GoodbyeOf(t, sip).items[k], i)
  {
    hide EncodeAll, ItemsOf, Head, GoodbyeBst.Table, Locates, GoodbyeOf, GoodbyeStart;
    GoodbyeItems(t, sip);
    var items := ItemsOf(t.children, |EncodeAll(Head(t.meta))|, GoodbyeStart(t, sip), sip);
    TableIsBst(items);
    var table := GoodbyeBst.Table(items);
    assert table[k] in multiset(items);
    i :| 0 <= i < |items| && items[i] == table[k];
    ItemLocates(t, sip, i);
  }

  /** Every child of the directory is located by a goodbye item. */
  lemma EveryChildLocated(t: Tree, sip: Name -> Word64, i: nat) returns (k: nat)
    requires t.kind.Dir? && i < |t.children|
    ensures k < |t.children| == |GoodbyeOf(t, sip).items| - 1
    ensures Locates(t, sip, GoodbyeOf(t, sip).items[k], i)
  {
    hide EncodeAll, ItemsOf, Head, GoodbyeBst.Table, Locates, GoodbyeOf, GoodbyeStart;
    GoodbyeItems(t, sip);
    var items := ItemsOf(t.children, |EncodeAll(Head(t.meta))|, GoodbyeStart(t, sip), sip);
    TableIsBst(items);
    var table := GoodbyeBst.Table(items);
    assert items[i] in multiset(table);
    k :| 0 <= k < |table| && table[k] == items[i];
    ItemLocates(t, sip, i);
  }

  /** The last item reaches back to the directory's own entry and carries the length of the goodbye element, which ends the directory. */
  lemma TailItem(t: Tree, sip: Name -> Word64)
    requires t.kind.Dir?
    ensures var items, g, b := GoodbyeOf(t, sip).items, GoodbyeStart(t, sip), EncodeAll(Elems(t, sip));
            && |items| > 0 && items[|items| - 1] == Item(g, |Encode(GoodbyeOf(t, sip))|, GOODBYE_TAIL)
            && g <= |b| && b[g..] == Encode(GoodbyeOf(t, sip))
  {
    hide EncodeAll, ChildElems, Elems, ItemsOf, Head, Encode, GoodbyeBst.Table, GoodbyeOf, ItemBytes;
    GoodbyeItems(t, sip);
    ElemsOf(t, sip);
    EncodedLength(GoodbyeOf(t, sip));
  }

  /** Decoding at an item's position yields the filename element of the child with that hash. */
  lemma ItemFindsName(t: Tree, sip: Name -> Word64, x: Item, i: nat)
    requires t.kind.Dir? && Locates(t, sip, x, i) && Filename(t.children[i].name).Valid()
    ensures var at := EncodeAll(Elems(t, sip))[GoodbyeStart(t, sip) - x.offset..];
            Decode(at).Got? && Decode(at).elem == Filename(t.children[i].name) && sip(Decode(at).elem.name) == x.hash
  {
    hide EncodeAll, ChildElems, Elems, Encode, Decode, GoodbyeStart, ChildBytes;
    var c, b, p := t.children[i], EncodeAll(Elems(t, sip)), GoodbyeStart(t, sip) - x.offset;
    ChildStep([c], sip);
    SpanThenRest(b, p, p + x.size, Encode(Filename(c.name)), EncodeAll(Elems(c, sip)));
    DecodeEncode(Filename(c.name), EncodeAll(Elems(c, sip)) + b[p + x.size..]);
  }

  lemma SpanThenRest(b: seq<Byte>, p: nat, q: nat, f: seq<Byte>, e: seq<Byte>)
    requires p <= q <= |b| && b[p..q] == f + e
    ensures b[p..] == f + (e + b[q..])
  {
    assert b[p..] == b[p..q] + b[q..];
  }

  /** Writing an archive and reading it: every supported node comes back, in order, with its path, attributes and contents. */
  method TarThenUntar(fs: FsBufReader, sip: Name -> Word64, ghost t: Tree) returns (nodes: seq<Node>, failed: bool)
    requires WellFormed(t) && t.kind.Dir? && fs.Pending() == Files(t, []) && |EncodeAll(Elems(t, sip))| < U64 / 2
    modifies fs
    ensures !failed && nodes == Delivered(old(fs.Pending())) && fs.Pending() == []
  {
    hide ReadArchive, EncodeAll, Elems, WellFormed, Files, Delivered;
    var archive := WriteArchive(fs, sip, t);
    ArchiveRoundTrip(t, sip);
    nodes, failed := Untar(archive);
  }
}
