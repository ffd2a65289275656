/**
 The catar reader: a decoder with one element of look-ahead and a current directory,
 and the proof that it gives back the tree that was archived.
 */
module Archive {
  import opened Chunking
  import opened GoodbyeBst
  import opened Prelude
  import opened Format
  import Decoder
  import opened Catar
  import opened Tar

  /** A directory, file, symlink or device node as the decoder returns it. */
  datatype Node = Node(path: Path, kind: Kind, meta: Meta)

  // ---------- the element stream ----------

  /** All elements of a stream, and whether it ends properly. */
  function Parse(b: seq<Byte>): (seq<Elem>, bool)
    decreases |b|
  {
    match Decode(b)
    case End => ([], true)
    case Bad => ([], false)
    case Got(e, rest) => var (es, ok) := Parse(rest); ([e] + es, ok)
  }

  lemma {:induction false} ParseEncoded(es: seq<Elem>)
    requires forall i :: 0 <= i < |es| ==> es[i].Valid()
    ensures Parse(EncodeAll(es)) == (es, true)
    decreases |es|
  {
    hide Decode, Encode;
    if es == [] {
      EmptyStream();
    } else {
      DecodeEncode(es[0], EncodeAll(es[1..]));
      ParseEncoded(es[1..]);
      assert [es[0]] + es[1..] == es;
    }
  }

  lemma EmptyStream()
    ensures Decode([]) == End
  {
  }

  // ---------- the node decoder ----------

  /** The local variables of ArchiveDecoder.Next; the metadata of the entry lacks the attributes. */
  datatype Acc = Acc(
    entry: Option<Meta>, payload: Option<Kind>, link: Option<Kind>, dev: Option<Kind>,
    xattrs: map<Name, seq<Byte>>, name: Name)

  const FRESH := Acc(None, None, None, None, map[], [])

  datatype Outcome = Found(node: Node, rest: seq<Elem>, dir: Path) | AtEnd | Invalid

  function Join(dir: Path, name: Name): Path {
    if name == [] then dir else dir + [name]
  }

  function IndexOfNul(s: seq<Byte>): (r: Option<nat>)
    ensures r.Some? ==> r.value < |s|
  {
    if s == [] then None
    else if s[0] == 0 then Some(0)
    else match IndexOfNul(s[1..]) case None => None case Some(i) => Some(i + 1)
  }

  /** The node that the accumulated elements describe; without payload, device or symlink it is a directory. */
  function NodeOf(acc: Acc, dir: Path): Node
    requires acc.entry.Some?
  {
    Node(Join(dir, acc.name),
         if acc.payload.Some? then acc.payload.value
         else if acc.dev.Some? then acc.dev.value
         else if acc.link.Some? then acc.link.value
         else Dir,
         acc.entry.value.(xattrs := acc.xattrs))
  }

  function DirAfter(acc: Acc, dir: Path): Path {
    if acc.payload.None? && acc.dev.None? && acc.link.None? then Join(dir, acc.name) else dir
  }

  /** What the loop does with one element: go on, return a node, or fail. `pushBack` keeps the element for the next call. */
  datatype Turn = Go(acc: Acc, dir: Path) | Return(acc: Acc, pushBack: bool) | Reject

  function Step(e: Elem, dir: Path, acc: Acc): Turn {
    match e
    case Entry(_, mode, _, uid, gid, mtime) =>
      if acc.entry.Some? then Reject else Go(acc.(entry := Some(Meta(uid, gid, mode, mtime, map[]))), dir)
    case Payload(size, data) =>
      if acc.entry.None? then Reject else Return(acc.(payload := Some(Reg((size - 16) % U64, data))), false)
    case XAttr(s) =>
      var i := IndexOfNul(s);
      if acc.entry.None? || i.None? then Reject
      else Go(acc.(xattrs := acc.xattrs[s[..i.value] := s[i.value + 1..]]), dir)
    case Symlink(target) =>
      if acc.entry.None? then Reject else Go(acc.(link := Some(Link(target))), dir)
    case Device(major, minor) =>
      if acc.entry.None? then Reject else Go(acc.(dev := Some(Dev(major, minor))), dir)
    case Filename(name) =>
      if acc.entry.Some? then Return(acc, true) else Go(acc.(name := name), dir)
    case Goodbye(_) =>
      if acc.entry.Some? then Return(acc, true) else Go(acc, ParentOf(dir))
    case Index(_, _, _, _) => Reject
    case Table(_) => Reject
    case Skip(_) => Go(acc, dir)
  }

  /** The loop of ArchiveDecoder.Next over the elements still to come; `ok` tells how the stream ends. */
  function Scan(es: seq<Elem>, ok: bool, dir: Path, acc: Acc): (o: Outcome)
    ensures o.Found? ==> |o.rest| <= |es| && (acc.entry.None? ==> |o.rest| < |es|)
    decreases |es|
  {
    if es == [] then (if ok then AtEnd else Invalid) else
    match Step(es[0], dir, acc)
    case Go(acc', dir') => Scan(es[1..], ok, dir', acc')
    case Return(acc', pushBack) =>
      if acc'.entry.None? then Invalid
      else Found(NodeOf(acc', dir), if pushBack then es else es[1..], DirAfter(acc', dir))
    case Reject => Invalid
  }

  lemma {:induction false} ScanIs(es: seq<Elem>, ok: bool, dir: Path, acc: Acc)
    ensures es == [] ==> Scan(es, ok, dir, acc) == if ok then AtEnd else Invalid
    ensures es != [] ==> var t := Step(es[0], dir, acc);
      && (t.Go? ==> Scan(es, ok, dir, acc) == Scan(es[1..], ok, t.dir, t.acc))
      && (t.Reject? || (t.Return? && t.acc.entry.None?) ==> Scan(es, ok, dir, acc) == Invalid)
      && (t.Return? && t.acc.entry.Some? ==>
            Scan(es, ok, dir, acc) == Found(NodeOf(t.acc, dir), if t.pushBack then es else es[1..], DirAfter(t.acc, dir)))
  {
    hide Step;
  }

  /** What a call of Next hands to its caller: a node, nil, or an error. */
  datatype Reply = NodeReply(node: Node) | NilReply | ErrorReply

  function ReplyOf(o: Outcome): Reply {
    match o
    case Found(node, _, _) => NodeReply(node)
    case AtEnd => NilReply
    case Invalid => ErrorReply
  }

  class ArchiveDecoder {
    const d: Decoder.FormatDecoder
    var dir: Path
    var last: Option<Elem>

    constructor (b: seq<Byte>)
      ensures fresh(d) && dir == [] && Pending() == Parse(b)
    {
      d := new Decoder.FormatDecoder(b);
      dir, last := [], None;
    }

    /** The elements still to come, starting with the one that was put aside. */
    ghost function Pending(): (seq<Elem>, bool)
      reads this, d
    {
      (if last.Some? then [last.value] + Parse(d.Remaining()).0 else Parse(d.Remaining()).0, Parse(d.Remaining()).1)
    }

    /** The next node is what the loop over the pending elements yields; the rest stays pending. */
    method Next() returns (r: Reply)
      modifies this, d
      ensures var o := Scan(old(Pending().0), old(Pending().1), old(dir), FRESH);
              && r == ReplyOf(o)
              && (o.Found? ==> Pending() == (o.rest, old(Pending().1)) && dir == o.dir)
    {
      hide Parse, Step, Scan, NodeOf, DirAfter;
      var acc := FRESH;
      ghost var es, ok := Pending().0, Pending().1;
      ghost var all := Scan(es, ok, dir, acc);
      while true
        invariant Pending().0 == es && Pending().1 == ok
        invariant all == Scan(es, ok, dir, acc)
        decreases |es|
      {
        ScanIs(es, ok, dir, acc);
        var c := Take();
        if c.Bad? { return ErrorReply; }
        if c.End? { return NilReply; }
        match Step(c.elem, dir, acc) {
          case Go(acc', dir') =>
            acc, dir := acc', dir';
            es := es[1..];
          case Reject => return ErrorReply;
          case Return(acc', pushBack) =>
            if acc'.entry.None? { return ErrorReply; }
            if pushBack {
              last := Some(c.elem);
              assert Pending().0 == es;
            }
            r := NodeReply(NodeOf(acc', dir));
            dir := DirAfter(acc', dir);
            return;
        }
      }
    }

    /** The element put aside, or else the next one of the stream. */
    method Take() returns (c: Decoded)
      modifies this`last, d
      ensures last.None?
      ensures old(Pending().0) == [] ==> if old(Pending().1) then c.End? else c.Bad?
      ensures old(Pending().0) != [] ==> c.Got? && Pending() == (old(Pending().0)[1..], old(Pending().1)) && c.elem == old(Pending().0)[0]
    {
      hide Decode;
      if last.Some? {
        c := Got(last.value, []);
        last := None;
        return;
      }
      c := d.Next();
    }
  }

  // ---------- whole archives ----------

  function ReadAll(es: seq<Elem>, ok: bool, dir: Path): Option<seq<Node>>
    decreases |es|
  {
    match Scan(es, ok, dir, FRESH)
    case AtEnd => Some([])
    case Invalid => None
    case Found(node, rest, dir') =>
      match ReadAll(rest, ok, dir')
      case None => None
      case Some(nodes) => Some([node] + nodes)
  }

  /** Every node of an archive, or None if it is malformed. */
  function ReadArchive(b: seq<Byte>): Option<seq<Node>> {
    ReadAll(Parse(b).0, Parse(b).1, [])
  }

  /** All nodes are those delivered so far and those still to come. */
  ghost predicate GoesOn(all: Option<seq<Node>>, nodes: seq<Node>, more: Option<seq<Node>>) {
    if more.None? then all.None? else all.Some? && all.value == nodes + more.value
  }

  /** Calling Next until it returns nil or an error. */
  method Untar(b: seq<Byte>) returns (nodes: seq<Node>, failed: bool)
    ensures if failed then ReadArchive(b).None? else ReadArchive(b) == Some(nodes)
  {
    hide Parse, Scan, ArchiveDecoder.Pending, ReadArchive;
    var a := new ArchiveDecoder(b);
    nodes := [];
    ReadStart(b);
    while true
      invariant fresh(a) && fresh(a.d) && a.Pending().1 == Parse(b).1
      invariant GoesOn(ReadArchive(b), nodes, ReadAll(a.Pending().0, a.Pending().1, a.dir))
      decreases |a.Pending().0|
    {
      var r := a.Next();
      match r
      case ErrorReply => return nodes, true;
      case NilReply =>
        assert nodes + [] == nodes;
        return nodes, false;
      case NodeReply(node) => nodes := nodes + [node];
    }
  }

  // ---------- the round trip ----------

  /** The nodes of a list of files: unsupported kinds vanish. */
  function Delivered(files: seq<File>): seq<Node> {
    if files == [] then [] else
      (if files[0].kind.Unsupported? then [] else [Node(files[0].path, files[0].kind, files[0].meta)]) + Delivered(files[1..])
  }

  lemma {:induction false} DeliveredConcat(a: seq<File>, b: seq<File>)
    ensures Delivered(a + b) == Delivered(a) + Delivered(b)
    decreases |a|
  {
    if a == [] {
      assert a + b == b;
    } else {
      assert (a + b)[1..] == a[1..] + b;
      DeliveredConcat(a[1..], b);
    }
  }

  /** Goodbyes up to the next filename or the end: a stale name is never used. */
  predicate NameSafe(es: seq<Elem>) {
    es == [] || es[0].Filename? || (es[0].Goodbye? && NameSafe(es[1..]))
  }

  lemma {:induction false} StaleName(es: seq<Elem>, dir: Path, name: Name)
    requires NameSafe(es)
    ensures Scan(es, true, dir, FRESH.(name := name)) == Scan(es, true, dir, FRESH)
    decreases |es|
  {
    if es != [] && es[0].Goodbye? {
      StaleName(es[1..], ParentOf(dir), name);
    }
  }

  function AddAll(keys: seq<Name>, m: map<Name, seq<Byte>>, x: map<Name, seq<Byte>>): map<Name, seq<Byte>>
    requires forall i :: 0 <= i < |keys| ==> keys[i] in m
  {
    if keys == [] then x else AddAll(keys[1..], m, x[keys[0] := m[keys[0]]])
  }

  lemma {:induction false} AddAllAt(keys: seq<Name>, m: map<Name, seq<Byte>>, x: map<Name, seq<Byte>>, k: Name)
    requires forall i :: 0 <= i < |keys| ==> keys[i] in m
    ensures k in AddAll(keys, m, x) <==> k in keys || k in x
    ensures k in AddAll(keys, m, x) ==> AddAll(keys, m, x)[k] == if k in keys then m[k] else x[k]
    decreases |keys|
  {
    if keys != [] {
      AddAllAt(keys[1..], m, x[keys[0] := m[keys[0]]], k);
      assert k in keys <==> k == keys[0] || k in keys[1..];
    }
  }

  lemma AllKeys(m: map<Name, seq<Byte>>)
    ensures forall i :: 0 <= i < |SortedKeys(m.Keys)| ==> SortedKeys(m.Keys)[i] in m
    ensures AddAll(SortedKeys(m.Keys), m, map[]) == m
  {
    hide SortedKeys, AddAll;
    SortedKeysAre(m.Keys);
    var keys := SortedKeys(m.Keys);
    forall k: Name
      ensures k in AddAll(keys, m, map[]) <==> k in m
      ensures k in m ==> AddAll(keys, m, map[])[k] == m[k]
    {
      AddAllAt(keys, m, map[], k);
    }
  }

  lemma {:induction false} NulAfterKey(key: Name, value: seq<Byte>)
    requires 0 !in key
    ensures IndexOfNul(key + [0] + value) == Some(|key|)
  {
    var s := key + [0] + value;
    if key != [] {
      assert s[1..] == key[1..] + [0] + value;
      NulAfterKey(key[1..], value);
    }
  }

  /** The attribute elements of a node accumulate its attributes. */
  lemma {:induction false} ScanXAttrs(keys: seq<Name>, m: map<Name, seq<Byte>>, rest: seq<Elem>, dir: Path, acc: Acc)
    requires forall i :: 0 <= i < |keys| ==> keys[i] in m && 0 !in keys[i]
    requires acc.entry.Some?
    ensures Scan(XAttrElems(keys, m) + rest, true, dir, acc) == Scan(rest, true, dir, acc.(xattrs := AddAll(keys, m, acc.xattrs)))
    decreases |keys|
  {
    if keys == [] {
      assert XAttrElems(keys, m) + rest == rest;
    } else {
      var k, v := keys[0], m[keys[0]];
      var es := XAttrElems(keys, m) + rest;
      assert es[0] == XAttr(k + [0] + v) && es[1..] == XAttrElems(keys[1..], m) + rest;
      NulAfterKey(k, v);
      assert (k + [0] + v)[..|k|] == k && (k + [0] + v)[|k| + 1..] == v;
      var acc' := acc.(xattrs := acc.xattrs[k := v]);
      assert Step(es[0], dir, acc) == Go(acc', dir);
      hide Step, XAttrElems, IndexOfNul;
      ScanXAttrs(keys[1..], m, rest, dir, acc');
    }
  }

  /** The accumulator after the head of a node. */
  function HeadAcc(m: Meta, name: Name): Acc {
    FRESH.(entry := Some(m.(xattrs := map[])), xattrs := m.xattrs, name := name)
  }

  lemma ScanHead(m: Meta, rest: seq<Elem>, dir: Path, name: Name)
    requires forall k :: k in m.xattrs ==> 0 !in k
    ensures Scan(Head(m) + rest, true, dir, FRESH.(name := name)) == Scan(rest, true, dir, HeadAcc(m, name))
  {
    AllKeys(m.xattrs);
    var keys := SortedKeys(m.xattrs.Keys);
    var e := Entry(TAR_FLAGS, m.mode, 0, m.uid, m.gid, m.mtime);
    var es := Head(m) + rest;
    assert es[0] == e && es[1..] == XAttrElems(keys, m.xattrs) + rest;
    var acc := FRESH.(name := name, entry := Some(m.(xattrs := map[])));
    assert Step(e, dir, FRESH.(name := name)) == Go(acc, dir);
    hide Step, XAttrElems, SortedKeys, AddAll, Head;
    ScanXAttrs(keys, m.xattrs, rest, dir, acc);
  }

  /** The element that holds the content of a file, symlink or device. */
  function Content(k: Kind): Elem
    requires k.Reg? || k.Link? || k.Dev?
  {
    match k
    case Reg(n, data) => Payload(16 + n, data)
    case Link(target) => Symlink(target)
    case Dev(major, minor) => Device(major, minor)
  }

  lemma ScanContent(k: Kind, m: Meta, name: Name, rest: seq<Elem>, dir: Path)
    requires (k.Reg? && k.size < U64) || k.Link? || k.Dev?
    requires name != [] && rest != [] && (rest[0].Filename? || rest[0].Goodbye?)
    ensures Scan([Content(k)] + rest, true, dir, HeadAcc(m, name)) == Found(Node(dir + [name], k, m), rest, dir)
  {
    var es := [Content(k)] + rest;
    assert es[0] == Content(k) && es[1..] == rest;
    if k.Reg? {
      assert (16 + k.size - 16) % U64 == k.size;
    }
  }

  /** A named node that is not a directory. */
  lemma ScanLeaf(t: Tree, sip: Name -> Word64, rest: seq<Elem>, dir: Path)
    requires WellFormed(t) && !t.kind.Dir? && !t.kind.Unsupported? && (t.kind.Reg? ==> t.kind.size < U64)
    requires rest != [] && (rest[0].Filename? || rest[0].Goodbye?)
    ensures Scan([Filename(t.name)] + Elems(t, sip) + rest, true, dir, FRESH)
         == Found(Node(dir + [t.name], t.kind, t.meta), rest, dir)
  {
    hide Head, NodeOf, DirAfter, AllWellFormed;
    var tail := [Content(t.kind)] + rest;
    var es := [Filename(t.name)] + Elems(t, sip) + rest;
    assert es[0] == Filename(t.name) && es[1..] == Head(t.meta) + tail;
    ScanName(t.name, Head(t.meta) + tail, dir, es);
    hide Scan, Elems, Content;
    ScanHead(t.meta, tail, dir, t.name);
    ScanContent(t.kind, t.meta, t.name, rest, dir);
  }

  lemma ScanName(name: Name, rest: seq<Elem>, dir: Path, es: seq<Elem>)
    requires es != [] && es[0] == Filename(name) && es[1..] == rest
    ensures Scan(es, true, dir, FRESH) == Scan(rest, true, dir, FRESH.(name := name))
  {
  }

  lemma ReadStart(b: seq<Byte>)
    ensures GoesOn(ReadArchive(b), [], ReadAll(Parse(b).0, Parse(b).1, []))
  {
  }

  // ---------- archives of other tools ----------

  /** The elements without those that desync reads past: users, groups, labels, capabilities and access lists. */
  function Essential(es: seq<Elem>): (r: seq<Elem>)
    ensures |r| <= |es|
  {
    if es == [] then [] else (if es[0].Skip? then [] else [es[0]]) + Essential(es[1..])
  }

  /** What a scan yields does not depend on the other elements. */
  predicate SameOutcome(o: Outcome, o': Outcome) {
    match o
    case Found(node, rest, dir) => o' == Found(node, Essential(rest), dir)
    case _ => o' == o
  }

  lemma {:induction false} ScanIgnores(es: seq<Elem>, ok: bool, dir: Path, acc: Acc)
    ensures SameOutcome(Scan(es, ok, dir, acc), Scan(Essential(es), ok, dir, acc))
    decreases |es|
  {
    hide Scan, NodeOf, DirAfter;
    ScanIs(es, ok, dir, acc);
    ScanIs(Essential(es), ok, dir, acc);
    if es != [] {
      var t := Step(es[0], dir, acc);
      if es[0].Skip? {
        assert Essential(es) == Essential(es[1..]);
        ScanIgnores(es[1..], ok, dir, acc);
      } else {
        assert Essential(es) == [es[0]] + Essential(es[1..]) && Essential(es)[1..] == Essential(es[1..]);
        if t.Go? { ScanIgnores(es[1..], ok, t.dir, t.acc); }
      }
    }
  }

  /** Elements that desync does not support change nothing about the nodes it finds, wherever they stand. */
  lemma {:induction false} ExtrasAreIgnored(es: seq<Elem>, ok: bool, dir: Path)
    ensures ReadAll(es, ok, dir) == ReadAll(Essential(es), ok, dir)
    decreases |es|
  {
    hide Scan;
    ScanIgnores(es, ok, dir, FRESH);
    var o := Scan(es, ok, dir, FRESH);
    if o.Found? { ExtrasAreIgnored(o.rest, ok, o.dir); }
  }

  /** Contents without an entry, a second entry, and elements of an index are errors. */
  lemma {:induction false} MalformedIsRejected(e: Elem, es: seq<Elem>, ok: bool, dir: Path, acc: Acc)
    requires || (acc.entry.None? && (e.Payload? || e.XAttr? || e.Symlink? || e.Device?))
             || (acc.entry.Some? && e.Entry?)
             || (e.XAttr? && 0 !in e.nameAndValue)
             || e.Index? || e.Table?
    ensures Scan([e] + es, ok, dir, acc) == Invalid
  {
    if e.XAttr? { NoNul(e.nameAndValue); }
    hide Scan;
    ScanIs([e] + es, ok, dir, acc);
  }

  /** A node with both a device and a symlink, as far as its contents are read. */
  function BothRead(m: Meta, target: seq<Byte>, major: nat, minor: nat, name: Name): Acc {
    FRESH.(name := name, entry := Some(m), link := Some(Link(target)), dev := Some(Dev(major, minor)))
  }

  lemma {:induction false} ReadBoth(m: Meta, target: seq<Byte>, major: nat, minor: nat, linkFirst: bool, t: seq<Elem>, ok: bool, dir: Path, name: Name)
    requires m.xattrs == map[]
    ensures var c1 := if linkFirst then Symlink(target) else Device(major, minor);
            var c2 := if linkFirst then Device(major, minor) else Symlink(target);
            Scan([Entry(TAR_FLAGS, m.mode, 0, m.uid, m.gid, m.mtime)] + ([c1] + ([c2] + t)), ok, dir, FRESH.(name := name))
            == Scan(t, ok, dir, BothRead(m, target, major, minor, name))
  {
    hide Scan, NodeOf, DirAfter;
    var c1 := if linkFirst then Symlink(target) else Device(major, minor);
    var c2 := if linkFirst then Device(major, minor) else Symlink(target);
    var entry, acc := Entry(TAR_FLAGS, m.mode, 0, m.uid, m.gid, m.mtime), FRESH.(name := name);
    var acc1 := acc.(entry := Some(m));
    ScanGo(entry, [c1] + ([c2] + t), ok, dir, acc);
    ScanGo(c1, [c2] + t, ok, dir, acc1);
    ScanGo(c2, t, ok, dir, Step(c1, dir, acc1).acc);
  }

  lemma {:induction false} ScanGo(e: Elem, es: seq<Elem>, ok: bool, dir: Path, acc: Acc)
    ensures Step(e, dir, acc).Go? ==> Scan([e] + es, ok, dir, acc) == Scan(es, ok, Step(e, dir, acc).dir, Step(e, dir, acc).acc)
  {
    hide Scan, Step, NodeOf, DirAfter;
    ScanIs([e] + es, ok, dir, acc);
    assert ([e] + es)[1..] == es;
  }

  /** If a node has several kinds of content, a payload makes it a file, otherwise a device wins over a symlink, in whatever order they come. */
  lemma {:induction false} MixedContents(m: Meta, target: seq<Byte>, major: nat, minor: nat, size: nat, data: seq<Byte>, linkFirst: bool,
                                         es: seq<Elem>, ok: bool, dir: Path, name: Name)
    requires es != [] && (es[0].Filename? || es[0].Goodbye?) && m.xattrs == map[]
    ensures var c1 := if linkFirst then Symlink(target) else Device(major, minor);
            var c2 := if linkFirst then Device(major, minor) else Symlink(target);
            var entry := Entry(TAR_FLAGS, m.mode, 0, m.uid, m.gid, m.mtime);
            var device := Scan([entry] + ([c1] + ([c2] + es)), ok, dir, FRESH.(name := name));
            var file := Scan([entry] + ([c1] + ([c2] + ([Payload(size, data)] + es))), ok, dir, FRESH.(name := name));
            && device == Found(Node(Join(dir, name), Dev(major, minor), m), es, dir)
            && file == Found(Node(Join(dir, name), Reg((size - 16) % U64, data), m), es, dir)
  {
    hide Scan, Join, BothRead;
    ReadBoth(m, target, major, minor, linkFirst, es, ok, dir, name);
    ReadBoth(m, target, major, minor, linkFirst, [Payload(size, data)] + es, ok, dir, name);
    DeviceEnds(m, target, major, minor, es, ok, dir, name);
    PayloadEnds(m, target, major, minor, size, data, es, ok, dir, name);
  }

  lemma {:induction false} DeviceEnds(m: Meta, target: seq<Byte>, major: nat, minor: nat, es: seq<Elem>, ok: bool, dir: Path, name: Name)
    requires es != [] && (es[0].Filename? || es[0].Goodbye?) && m.xattrs == map[]
    ensures Scan(es, ok, dir, BothRead(m, target, major, minor, name)) == Found(Node(Join(dir, name), Dev(major, minor), m), es, dir)
  {
    hide Scan, Join;
    ScanIs(es, ok, dir, BothRead(m, target, major, minor, name));
  }

  lemma {:induction false} PayloadEnds(m: Meta, target: seq<Byte>, major: nat, minor: nat, size: nat, data: seq<Byte>,
                                       es: seq<Elem>, ok: bool, dir: Path, name: Name)
    requires m.xattrs == map[]
    ensures Scan([Payload(size, data)] + es, ok, dir, BothRead(m, target, major, minor, name))
            == Found(Node(Join(dir, name), Reg((size - 16) % U64, data), m), es, dir)
  {
    hide Scan, Join;
    ScanIs([Payload(size, data)] + es, ok, dir, BothRead(m, target, major, minor, name));
    assert ([Payload(size, data)] + es)[1..] == es;
  }

  lemma {:induction false} NoNul(s: seq<Byte>)
    ensures IndexOfNul(s).None? <==> 0 !in s
    decreases |s|
  {
    if s != [] && s[0] != 0 {
      NoNul(s[1..]);
      assert s == [s[0]] + s[1..];
    }
  }
}
