/**
 The casync format elements as bytes: what an element is encoded to, what bytes decode to,
 and the law that decoding undoes encoding with any bytes following.
 */
module Format {
  import opened Prelude
  import opened Chunking
  import opened GoodbyeBst

  const MAX_U64 := U64 - 1

  const ENTRY := 0x1396fabcea5bbb51
  const USER := 0xf453131aaeeaccb3
  const GROUP := 0x25eb6ac969396a52
  const XATTR := 0xb8157091f80bc486
  const ACL_USER := 0x297dc88b2ef12faf
  const ACL_GROUP := 0x36f2acb56cb3dd0b
  const ACL_GROUP_OBJ := 0x23047110441f38f3
  const ACL_DEFAULT := 0xfe3eeda6823c8cd0
  const FCAPS := 0xf7267db0afed0629
  const SELINUX := 0x46faf0602fd26c59
  const SYMLINK := 0x664a6fb6830e0d6c
  const DEVICE := 0xac3dace369dfe643
  const PAYLOAD := 0x8b9e1d93d6dcffc9
  const FILENAME := 0x6dbb6ebcb3161f0b
  const GOODBYE := 0xdfd35c5e8327c403
  const GOODBYE_TAIL := 0x57446fa533702943
  const INDEX := 0x96824d9c7b129ff9
  const TABLE := 0xe75b9e112f17417d
  const TABLE_TAIL := 0x4b4f050e5549ecd1

  // ---------- little-endian words ----------

  function Le(v: nat, n: nat): (b: seq<Byte>)
    ensures |b| == n
    decreases n
  {
    if n == 0 then [] else [v % 256] + Le(v / 256, n - 1)
  }

  function UnLe(b: seq<Byte>): nat {
    if b == [] then 0 else b[0] + 256 * UnLe(b[1..])
  }

  function Pow256(n: nat): nat {
    if n == 0 then 1 else 256 * Pow256(n - 1)
  }

  lemma {:induction false} LeRoundTrip(v: nat, n: nat)
    requires v < Pow256(n)
    ensures UnLe(Le(v, n)) == v
    decreases n
  {
    if n > 0 {
      LeRoundTrip(v / 256, n - 1);
      assert Le(v, n)[1..] == Le(v / 256, n - 1);
    }
  }

  /** WriteUint64: each value as eight little-endian bytes. */
  function Words(vs: seq<nat>): (b: seq<Byte>)
    ensures |b| == 8 * |vs|
  {
    if vs == [] then [] else Le(vs[0], 8) + Words(vs[1..])
  }

  /** n calls of ReadUint64; None if the stream ends before. */
  function ReadWords(b: seq<Byte>, n: nat): (r: Option<(seq<nat>, seq<Byte>)>)
    ensures r.Some? ==> |r.value.0| == n && |r.value.1| == |b| - 8 * n
    decreases n
  {
    if n == 0 then Some(([], b))
    else if |b| < 8 then None
    else match ReadWords(b[8..], n - 1)
      case None => None
      case Some((vs, rest)) => Some(([UnLe(b[..8])] + vs, rest))
  }

  predicate AllU64(vs: seq<nat>) {
    forall i :: 0 <= i < |vs| ==> vs[i] < U64
  }

  lemma {:induction false} ReadWordsOf(vs: seq<nat>, rest: seq<Byte>)
    requires AllU64(vs)
    ensures ReadWords(Words(vs) + rest, |vs|) == Some((vs, rest))
    decreases |vs|
  {
    hide Le, UnLe, Words, Pow256;
    if vs == [] {
      NoWords(rest);
    } else {
      var w, t := Le(vs[0], 8), Words(vs[1..]) + rest;
      WordsUnfold(vs, rest);
      Halves(w, t);
      Pow256Of8();
      LeRoundTrip(vs[0], 8);
      ReadWordsOf(vs[1..], rest);
      assert [vs[0]] + vs[1..] == vs;
    }
  }

  lemma NoWords(rest: seq<Byte>)
    ensures Words([]) + rest == rest
  {
  }

  lemma WordsUnfold(vs: seq<nat>, rest: seq<Byte>)
    requires vs != []
    ensures Words(vs) + rest == Le(vs[0], 8) + (Words(vs[1..]) + rest)
  {
    hide Le;
  }

  lemma Halves(w: seq<Byte>, t: seq<Byte>)
    ensures (w + t)[..|w|] == w && (w + t)[|w|..] == t
  {
  }

  lemma Pow256Of8()
    ensures Pow256(8) == U64
  {
    assert Pow256(2) == 0x1_0000;
    assert Pow256(4) == 0x1_0000_0000;
    assert Pow256(6) == 0x1_0000_0000_0000;
  }

  // ---------- elements ----------

  datatype TableItem = TableItem(offset: nat, id: ChunkID)

  /** Elements that archives of other tools hold and desync reads past. */
  datatype Extra =
    | User(user: seq<Byte>)
    | Group(group: seq<Byte>)
    | SELinux(context: seq<Byte>)
    | FCaps(caps: seq<Byte>)
    | ACLUser(id: nat, perms: nat, who: seq<Byte>)
    | ACLGroup(id: nat, perms: nat, who: seq<Byte>)
    | ACLGroupObj(perms: nat)
    | ACLDefault(userObj: nat, groupObj: nat, other: nat, mask: nat)
  {
    function Type(): nat {
      match this
      case User(_) => USER
      case Group(_) => GROUP
      case SELinux(_) => SELINUX
      case FCaps(_) => FCAPS
      case ACLUser(_, _, _) => ACL_USER
      case ACLGroup(_, _, _) => ACL_GROUP
      case ACLGroupObj(_) => ACL_GROUP_OBJ
      case ACLDefault(_, _, _, _) => ACL_DEFAULT
    }

    function Body(): seq<Byte> {
      match this
      case User(s) => s + [0]
      case Group(s) => s + [0]
      case SELinux(s) => s + [0]
      case FCaps(b) => b
      case ACLUser(id, perms, s) => Words([id, perms]) + (s + [0])
      case ACLGroup(id, perms, s) => Words([id, perms]) + (s + [0])
      case ACLGroupObj(perms) => Words([perms])
      case ACLDefault(userObj, groupObj, other, mask) => Words([userObj, groupObj, other, mask])
    }

    predicate Valid() {
      && 16 + |Body()| < U64
      && match this
         case ACLUser(id, perms, _) => AllU64([id, perms])
         case ACLGroup(id, perms, _) => AllU64([id, perms])
         case ACLGroupObj(perms) => AllU64([perms])
         case ACLDefault(userObj, groupObj, other, mask) => AllU64([userObj, groupObj, other, mask])
         case _ => true
    }
  }

  /** `Payload.size` is the size declared in its header, 16 more than the length of the data. */
  datatype Elem =
    | Entry(featureFlags: nat, mode: nat, flags: nat, uid: nat, gid: nat, mtime: nat)
    | XAttr(nameAndValue: seq<Byte>)
    | Filename(name: seq<Byte>)
    | Symlink(target: seq<Byte>)
    | Device(major: nat, minor: nat)
    | Payload(size: nat, data: seq<Byte>)
    | Goodbye(items: seq<Item>)
    | Index(indexFlags: nat, min: nat, avg: nat, max: nat)
    | Table(rows: seq<TableItem>)
    | Skip(extra: Extra)
  {
    /** The header type. */
    function Type(): nat {
      match this
      case Entry(_, _, _, _, _, _) => ENTRY
      case XAttr(_) => XATTR
      case Filename(_) => FILENAME
      case Symlink(_) => SYMLINK
      case Device(_, _) => DEVICE
      case Payload(_, _) => PAYLOAD
      case Goodbye(_) => GOODBYE
      case Index(_, _, _, _) => INDEX
      case Table(_) => TABLE
      case Skip(x) => x.Type()
    }

    /** The header size its writers put in. */
    function Size(): nat {
      match this
      case Entry(_, _, _, _, _, _) => 64
      case XAttr(s) => 16 + |s| + 1
      case Filename(s) => 16 + |s| + 1
      case Symlink(s) => 16 + |s| + 1
      case Device(_, _) => 32
      case Payload(n, _) => n
      case Goodbye(items) => 16 + 24 * |items|
      case Index(_, _, _, _) => 48
      case Table(_) => MAX_U64
      case Skip(x) => 16 + |x.Body()|
    }

    /** The bytes after the header. */
    function Body(): seq<Byte> {
      match this
      case Entry(ff, mode, flags, uid, gid, mtime) => Words([ff, mode, flags, uid, gid, mtime])
      case XAttr(s) => s + [0]
      case Filename(s) => s + [0]
      case Symlink(s) => s + [0]
      case Device(major, minor) => Words([major, minor])
      case Payload(_, data) => data
      case Goodbye(items) => ItemBytes(items)
      case Index(ff, min, avg, max) => Words([ff, min, avg, max])
      case Table(rows) => RowBytes(rows) + Words([0, 0, 48, (16 + |RowBytes(rows)| + 40) % U64, TABLE_TAIL])
      case Skip(x) => x.Body()
    }

    /** What a writer must respect for the element to be readable again. */
    predicate Valid() {
      match this
      case Entry(ff, mode, flags, uid, gid, mtime) => AllU64([ff, mode, flags, uid, gid, mtime])
      case XAttr(s) => 17 + |s| < U64
      case Filename(s) => 17 + |s| < U64
      case Symlink(s) => 17 + |s| < U64
      case Device(major, minor) => AllU64([major, minor])
      case Payload(n, data) => n == 16 + |data| && |data| < U64 / 2
      case Goodbye(items) =>
        && 16 + 24 * |items| < U64 && |items| > 0 && items[|items| - 1].hash == GOODBYE_TAIL
        && forall i :: 0 <= i < |items| ==> ItemValid(items[i])
      case Index(ff, min, avg, max) => AllU64([ff, min, avg, max])
      case Table(rows) =>
        forall i :: 0 <= i < |rows| ==> 0 < rows[i].offset < U64 && |rows[i].id| == 32
      case Skip(x) => x.Valid()
    }
  }

  predicate ItemValid(x: Item) { x.offset < U64 && x.size < U64 && x.hash < U64 }

  function ItemBytes(items: seq<Item>): (b: seq<Byte>)
    ensures |b| == 24 * |items|
  {
    if items == [] then [] else Words([items[0].offset, items[0].size, items[0].hash]) + ItemBytes(items[1..])
  }

  function RowBytes(rows: seq<TableItem>): seq<Byte> {
    if rows == [] then [] else Words([rows[0].offset]) + rows[0].id + RowBytes(rows[1..])
  }

  /** The bytes of an element. */
  function Encode(e: Elem): seq<Byte> {
    Words([e.Size(), e.Type()]) + e.Body()
  }

  // ---------- decoding ----------

  /** The outcome of FormatDecoder.Next: nil at the end, an error, or an element. */
  datatype Decoded = End | Bad | Got(elem: Elem, rest: seq<Byte>)

  /**
   FormatDecoder.Next on the remaining bytes. The end is recognised where the header's
   first or second word would start; a payload is cut short where the stream is.
   */
  function Decode(b: seq<Byte>): (d: Decoded)
    ensures d.Got? ==> |d.rest| < |b|
  {
    if |b| == 0 || |b| == 8 then End
    else match ReadWords(b, 2)
      case None => Bad
      case Some((h, r)) => DecodeBody(h[0], h[1], r)
  }

  function DecodeBody(size: nat, typ: nat, r: seq<Byte>): (d: Decoded)
    ensures d.Got? ==> |d.rest| <= |r|
  {
    if typ == ENTRY then
      if size != 64 then Bad else
      match ReadWords(r, 6)
      case None => Bad
      case Some((v, rest)) => Got(Entry(v[0], v[1], v[2], v[3], v[4], v[5]), rest)
    else if typ == XATTR then
      match ReadString(size, r) case None => Bad case Some((s, rest)) => Got(XAttr(s), rest)
    else if typ == FILENAME then
      match ReadString(size, r) case None => Bad case Some((s, rest)) => Got(Filename(s), rest)
    else if typ == SYMLINK then
      match ReadString(size, r) case None => Bad case Some((s, rest)) => Got(Symlink(s), rest)
    else if typ == DEVICE then
      if size != 32 then Bad else
      match ReadWords(r, 2) case None => Bad case Some((v, rest)) => Got(Device(v[0], v[1]), rest)
    else if typ == PAYLOAD then
      var k := PayloadLength(size, |r|);
      Got(Payload(size, r[..k]), r[k..])
    else if typ == GOODBYE then
      DecodeGoodbye(size, r)
    else if typ == INDEX then
      match ReadWords(r, 4) case None => Bad case Some((v, rest)) => Got(Index(v[0], v[1], v[2], v[3]), rest)
    else if typ == TABLE then
      if size != MAX_U64 then Bad else
      match ReadRows(r)
      case None => Bad
      case Some((rows, t)) =>
        match ReadWords(t, 4)
        case None => Bad
        case Some((v, rest)) => if v[0] != 0 || v[3] != TABLE_TAIL then Bad else Got(Table(rows), rest)
    else
      match DecodeExtra(size, typ, r) case None => Bad case Some((x, rest)) => Got(Skip(x), rest)
  }

  function DecodeExtra(size: nat, typ: nat, r: seq<Byte>): (x: Option<(Extra, seq<Byte>)>)
    ensures x.Some? ==> |x.value.1| <= |r|
  {
    if typ == USER then
      match ReadString(size, r) case None => None case Some((s, rest)) => Some((User(s), rest))
    else if typ == GROUP then
      match ReadString(size, r) case None => None case Some((s, rest)) => Some((Group(s), rest))
    else if typ == SELINUX then
      match ReadString(size, r) case None => None case Some((s, rest)) => Some((SELinux(s), rest))
    else if typ == FCAPS then
      if size < 16 || |r| < size - 16 then None else Some((FCaps(r[..size - 16]), r[size - 16..]))
    else if typ == ACL_USER || typ == ACL_GROUP then
      match ReadWords(r, 2)
      case None => None
      case Some((v, t)) =>
        if size < 16 then None else
        match ReadString(size - 16, t)
        case None => None
        case Some((s, rest)) => Some((if typ == ACL_USER then ACLUser(v[0], v[1], s) else ACLGroup(v[0], v[1], s), rest))
    else if typ == ACL_GROUP_OBJ then
      match ReadWords(r, 1) case None => None case Some((v, rest)) => Some((ACLGroupObj(v[0]), rest))
    else if typ == ACL_DEFAULT then
      match ReadWords(r, 4) case None => None case Some((v, rest)) => Some((ACLDefault(v[0], v[1], v[2], v[3]), rest))
    else None
  }

  function DecodeGoodbye(size: nat, r: seq<Byte>): (d: Decoded)
    ensures d.Got? ==> |d.rest| <= |r|
  {
    if size < 16 then Bad else
    match ReadItems(r, (size - 16) / 24)
    case None => Bad
    case Some((items, rest)) =>
      if |items| < 1 || items[|items| - 1].hash != GOODBYE_TAIL then Bad else Got(Goodbye(items), rest)
  }

  /** The limit of the payload reader, int64(hdr.Size - 16) with 64-bit wrap-around, on what the stream still has. */
  function PayloadLength(size: nat, available: nat): (k: nat)
    ensures k <= available
  {
    var limit := (size - 16) % U64;
    if limit >= U64 / 2 then 0 else Min(limit, available)
  }

  /** A payload is what its size declares, or what there is of it; a size that gives no signed 64-bit length holds nothing. */
  lemma PayloadLengthIs(size: nat, available: nat)
    requires size < U64
    ensures PayloadLength(size, available) ==
            if size < 16 || size - 16 >= 0x8000_0000_0000_0000 then 0
            else if size - 16 <= available then size - 16
            else available
  {
  }

  /** A string with its trailing zero byte. */
  function ReadString(size: nat, r: seq<Byte>): Option<(seq<Byte>, seq<Byte>)> {
    if size < 17 || |r| < size - 16 then None else Some((r[..size - 17], r[size - 16..]))
  }

  function ReadItems(r: seq<Byte>, n: nat): (x: Option<(seq<Item>, seq<Byte>)>)
    ensures x.Some? ==> |x.value.0| == n && |x.value.1| <= |r|
    decreases n
  {
    if n == 0 then Some(([], r))
    else match ReadWords(r, 3)
      case None => None
      case Some((v, t)) =>
        match ReadItems(t, n - 1)
        case None => None
        case Some((items, rest)) => Some(([Item(v[0], v[1], v[2])] + items, rest))
  }

  /** Rows up to the one whose offset is zero, which is consumed. */
  function ReadRows(r: seq<Byte>): (x: Option<(seq<TableItem>, seq<Byte>)>)
    ensures x.Some? ==> |x.value.1| <= |r|
    decreases |r|
  {
    if |r| < 8 then None else
    var offset, t := UnLe(r[..8]), r[8..];
    if offset == 0 then Some(([], t))
    else if |t| < 32 then None
    else match ReadRows(t[32..])
      case None => None
      case Some((rows, rest)) => Some(([TableItem(offset, t[..32])] + rows, rest))
  }

  // ---------- decoding undoes encoding ----------

  lemma {:induction false} ReadItemsOf(items: seq<Item>, rest: seq<Byte>)
    requires forall i :: 0 <= i < |items| ==> ItemValid(items[i])
    ensures ReadItems(ItemBytes(items) + rest, |items|) == Some((items, rest))
    decreases |items|
  {
    hide Words, ReadWords, ItemBytes;
    ItemsUnfold(items, rest);
    if items != [] {
      var x := items[0];
      ReadWordsOf([x.offset, x.size, x.hash], ItemBytes(items[1..]) + rest);
      ReadItemsOf(items[1..], rest);
      assert [x] + items[1..] == items;
    }
  }

  lemma ItemsUnfold(items: seq<Item>, rest: seq<Byte>)
    ensures ItemBytes(items) + rest ==
            if items == [] then rest
            else Words([items[0].offset, items[0].size, items[0].hash]) + (ItemBytes(items[1..]) + rest)
  {
    hide Words;
  }

  lemma WordIs(v: nat, rest: seq<Byte>)
    requires v < U64
    ensures var b := Words([v]) + rest; |b| >= 8 && UnLe(b[..8]) == v && b[8..] == rest
  {
    ReadWordsOf([v], rest);
    assert ReadWords((Words([v]) + rest)[8..], 0) == Some(([], (Words([v]) + rest)[8..]));
  }

  lemma {:induction false} ReadRowsOf(rows: seq<TableItem>, rest: seq<Byte>)
    requires forall i :: 0 <= i < |rows| ==> 0 < rows[i].offset < U64 && |rows[i].id| == 32
    ensures ReadRows(RowBytes(rows) + (Words([0]) + rest)) == Some((rows, rest))
    decreases |rows|
  {
    hide Words, UnLe;
    if rows == [] {
      assert RowBytes(rows) + (Words([0]) + rest) == Words([0]) + rest;
      WordIs(0, rest);
    } else {
      var x, t := rows[0], RowBytes(rows[1..]) + (Words([0]) + rest);
      var b := RowBytes(rows) + (Words([0]) + rest);
      assert b == Words([x.offset]) + (x.id + t);
      WordIs(x.offset, x.id + t);
      assert (x.id + t)[..32] == x.id && (x.id + t)[32..] == t;
      ReadRowsOf(rows[1..], rest);
      assert [x] + rows[1..] == rows;
    }
  }

  /** Decoding the encoding of any valid element gives it back and consumes exactly its bytes. */
  lemma DecodeEncode(e: Elem, rest: seq<Byte>)
    requires e.Valid()
    ensures Decode(Encode(e) + rest) == Got(e, rest)
  {
    var h := [e.Size(), e.Type()];
    assert Encode(e) + rest == Words(h) + (e.Body() + rest);
    assert |Encode(e) + rest| > 8;
    BodyLength(e);
    hide Words, ReadWords, DecodeBody, Elem.Body, Elem.Valid;
    ReadWordsOf(h, e.Body() + rest);
    BodyRoundTrip(e, rest);
  }

  lemma BodyLength(e: Elem)
    requires e.Valid()
    ensures e.Size() < U64 && e.Type() < U64
  {
  }

  lemma BodyRoundTrip(e: Elem, rest: seq<Byte>)
    requires e.Valid()
    ensures DecodeBody(e.Size(), e.Type(), e.Body() + rest) == Got(e, rest)
  {
    hide ReadWords, ReadItems, ReadRows, ReadString, DecodeGoodbye, DecodeExtra, Words, ItemBytes, RowBytes, PayloadLength, Elem.Valid, Extra.Body;
    match e
    case Table(rows) => TableRoundTrip(rows, rest);
    case Goodbye(items) => GoodbyeRoundTrip(items, rest);
    case Entry(_, _, _, _, _, _) => FixedRoundTrip(e, rest);
    case Device(_, _) => FixedRoundTrip(e, rest);
    case Index(_, _, _, _) => FixedRoundTrip(e, rest);
    case Skip(x) => ExtraRoundTrip(x, rest);
    case _ => BytesRoundTrip(e, rest);
  }

  /** Elements of a fixed number of words. */
  lemma FixedRoundTrip(e: Elem, rest: seq<Byte>)
    requires e.Valid() && (e.Entry? || e.Device? || e.Index?)
    ensures DecodeBody(e.Size(), e.Type(), e.Body() + rest) == Got(e, rest)
  {
    hide Words, ReadWords, ReadItems, ReadRows, ReadString;
    match e
    case Entry(ff, mode, flags, uid, gid, mtime) => ReadWordsOf([ff, mode, flags, uid, gid, mtime], rest);
    case Device(major, minor) => ReadWordsOf([major, minor], rest);
    case Index(ff, min, avg, max) => ReadWordsOf([ff, min, avg, max], rest);
  }

  /** Elements that hold a string or a payload. */
  lemma BytesRoundTrip(e: Elem, rest: seq<Byte>)
    requires e.Valid() && (e.XAttr? || e.Filename? || e.Symlink? || e.Payload?)
    ensures DecodeBody(e.Size(), e.Type(), e.Body() + rest) == Got(e, rest)
  {
    hide ReadWords, ReadItems, ReadRows, ReadString;
    match e
    case XAttr(s) => StringRoundTrip(s, rest);
    case Filename(s) => StringRoundTrip(s, rest);
    case Symlink(s) => StringRoundTrip(s, rest);
    case Payload(n, data) => Halves(data, rest);
  }

  lemma ExtraRoundTrip(x: Extra, rest: seq<Byte>)
    requires Elem.Skip(x).Valid()
    ensures DecodeExtra(16 + |x.Body()|, x.Type(), x.Body() + rest) == Some((x, rest))
  {
    hide Words, ReadWords, ReadString;
    match x
    case User(s) => StringRoundTrip(s, rest);
    case Group(s) => StringRoundTrip(s, rest);
    case SELinux(s) => StringRoundTrip(s, rest);
    case FCaps(b) => Halves(b, rest);
    case ACLUser(id, perms, s) => AclRoundTrip(id, perms, s, rest);
    case ACLGroup(id, perms, s) => AclRoundTrip(id, perms, s, rest);
    case ACLGroupObj(perms) => ReadWordsOf([perms], rest);
    case ACLDefault(userObj, groupObj, other, mask) => ReadWordsOf([userObj, groupObj, other, mask], rest);
  }

  lemma AclRoundTrip(id: nat, perms: nat, s: seq<Byte>, rest: seq<Byte>)
    requires AllU64([id, perms])
    ensures ReadWords(Words([id, perms]) + (s + [0]) + rest, 2) == Some(([id, perms], s + [0] + rest))
    ensures ReadString(16 + |s| + 1, s + [0] + rest) == Some((s, rest))
  {
    hide Words, ReadWords, ReadString;
    var t := s + [0] + rest;
    assert Words([id, perms]) + (s + [0]) + rest == Words([id, perms]) + t;
    ReadWordsOf([id, perms], t);
    StringRoundTrip(s, rest);
  }

  lemma GoodbyeRoundTrip(items: seq<Item>, rest: seq<Byte>)
    requires Elem.Goodbye(items).Valid()
    ensures DecodeGoodbye(16 + 24 * |items|, ItemBytes(items) + rest) == Got(Elem.Goodbye(items), rest)
  {
    hide ReadItems, ItemBytes, Extra.Valid, Words, AllU64;
    ReadItemsOf(items, rest);
    ItemCount(|items|);
  }

  lemma ItemCount(n: nat)
    ensures (16 + 24 * n - 16) / 24 == n
  {
  }

  lemma StringRoundTrip(s: seq<Byte>, rest: seq<Byte>)
    ensures ReadString(16 + |s| + 1, s + [0] + rest) == Some((s, rest))
  {
    var r := s + [0] + rest;
    assert r[..|s|] == s && r[|s| + 1..] == rest;
  }

  lemma TableRoundTrip(rows: seq<TableItem>, rest: seq<Byte>)
    requires Elem.Table(rows).Valid()
    ensures DecodeBody(MAX_U64, TABLE, Elem.Table(rows).Body() + rest) == Got(Elem.Table(rows), rest)
  {
    hide Words, ReadWords, RowBytes, ReadRows;
    var n := (16 + |RowBytes(rows)| + 40) % U64;
    var v := [0, 48, n, TABLE_TAIL];
    assert [0, 0, 48, n, TABLE_TAIL] == [0] + v;
    WordsCons(0, v);
    var tail := Words(v) + rest;
    assert (RowBytes(rows) + (Words([0]) + Words(v))) + rest == RowBytes(rows) + (Words([0]) + tail);
    ReadRowsOf(rows, tail);
    ReadWordsOf(v, rest);
  }

  lemma WordsCons(x: nat, v: seq<nat>)
    ensures Words([x] + v) == Words([x]) + Words(v)
  {
    assert ([x] + v)[1..] == v && [x][1..] == [];
  }
}
