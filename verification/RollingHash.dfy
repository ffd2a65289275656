/**
 The rolling hash over a 48-byte window. The table is a parameter: nothing below
 depends on its 256 entries.
 */
module RollingHash {
  import opened Chunking

  // ---------- the window hash ----------

  function Rotl1(x: bv32): bv32 {
    (x << 1) | (x >> 31)
  }

  /** Rotation to the left by k bits. */
  function Rotl(x: bv32, k: nat): bv32 {
    if k == 0 then x else Rotl1(Rotl(x, k - 1))
  }

  function Xor(a: bv32, b: bv32): bv32 {
    a ^ b
  }

  type Table = t: seq<bv32> | |t| == 256 witness seq(256, _ => 0)

  /** The hash of a window, computed from scratch. */
  function WindowHash(t: Table, w: seq<Byte>): bv32 {
    if w == [] then 0 else Xor(Rotl1(WindowHash(t, w[..|w| - 1])), t[w[|w| - 1]])
  }

  lemma Rotl1Xor(a: bv32, b: bv32)
    ensures Rotl1(Xor(a, b)) == Xor(Rotl1(a), Rotl1(b))
  {
  }

  lemma XorLaws(a: bv32, b: bv32, c: bv32)
    ensures (a ^ b) ^ c == (a ^ c) ^ b
    ensures (a ^ b) ^ b == a
  {
  }

  lemma XorSwap(a: bv32, b: bv32, c: bv32)
    ensures Xor(Xor(a, b), c) == Xor(Xor(a, c), b)
  {
    XorLaws(a, b, c);
    var x, y := a ^ b, a ^ c;
    assert Xor(a, b) == x && Xor(a, c) == y;
    hide Xor;
    XorIs(x, c);
    XorIs(y, b);
  }

  lemma XorIs(a: bv32, b: bv32)
    ensures Xor(a, b) == a ^ b
  {
  }

  lemma XorCancel(a: bv32, b: bv32)
    ensures Xor(Xor(a, b), b) == a && Xor(0, a) == a && Rotl1(0) == 0
  {
    XorLaws(a, b, b);
  }

  lemma {:induction false} RotlXor(a: bv32, b: bv32, k: nat)
    ensures Rotl(Xor(a, b), k) == Xor(Rotl(a, k), Rotl(b, k))
  {
    hide Xor, Rotl1;
    if k > 0 {
      RotlXor(a, b, k - 1);
      Rotl1Xor(Rotl(a, k - 1), Rotl(b, k - 1));
    }
  }

  lemma {:induction false} RotlInner(x: bv32, k: nat)
    ensures Rotl(x, k + 1) == Rotl(Rotl1(x), k)
  {
    hide Rotl1;
    if k > 0 {
      RotlInner(x, k - 1);
    }
  }

  /** 48 one-bit rotations are the half-word swap that RotateLeft32(x, 48) performs. */
  lemma Rotl48(x: bv32)
    ensures Rotl(x, 48) == Swap16(x) == RotateLeft32(x, 48)
  {
    Half(x);
    hide *;
    Rotl16(x);
    Rotl16(Rotl(x, 16));
    Rotl16(Rotl(x, 32));
    RotlSum(x, 16, 16);
    RotlSum(x, 32, 16);
    Swap16Twice(x);
  }

  lemma Half(x: bv32)
    ensures RotateLeft32(x, 48) == Swap16(x)
  {
  }

  lemma {:induction false} RotlSum(x: bv32, a: nat, b: nat)
    ensures Rotl(x, a + b) == Rotl(Rotl(x, a), b)
  {
    hide Rotl1;
    if b > 0 {
      RotlSum(x, a, b - 1);
    }
  }

  function Swap2(x: bv32): bv32 { (x << 2) | (x >> 30) }
  function Swap4(x: bv32): bv32 { (x << 4) | (x >> 28) }
  function Swap8(x: bv32): bv32 { (x << 8) | (x >> 24) }
  function Swap16(x: bv32): bv32 { (x << 16) | (x >> 16) }

  lemma Swap1Twice(x: bv32)
    ensures Rotl1(Rotl1(x)) == Swap2(x)
  {
  }

  lemma Swap2Twice(x: bv32)
    ensures Swap2(Swap2(x)) == Swap4(x)
  {
  }

  lemma Swap4Twice(x: bv32)
    ensures Swap4(Swap4(x)) == Swap8(x)
  {
  }

  lemma Swap8Twice(x: bv32)
    ensures Swap8(Swap8(x)) == Swap16(x)
  {
  }

  lemma Swap16Twice(x: bv32)
    ensures Swap16(Swap16(x)) == x
  {
  }

  lemma Rotl2(x: bv32)
    ensures Rotl(x, 2) == Swap2(x)
  {
    hide Rotl1, Swap2;
    Swap1Twice(x);
    assert Rotl(x, 1) == Rotl1(x);
  }

  lemma Rotl4(x: bv32)
    ensures Rotl(x, 4) == Swap4(x)
  {
    hide *;
    Rotl2(x);
    Rotl2(Rotl(x, 2));
    RotlSum(x, 2, 2);
    Swap2Twice(x);
  }

  lemma Rotl8(x: bv32)
    ensures Rotl(x, 8) == Swap8(x)
  {
    hide *;
    Rotl4(x);
    Rotl4(Rotl(x, 4));
    RotlSum(x, 4, 4);
    Swap4Twice(x);
  }

  lemma Rotl16(x: bv32)
    ensures Rotl(x, 16) == Swap16(x)
  {
    hide *;
    Rotl8(x);
    Rotl8(Rotl(x, 8));
    RotlSum(x, 8, 8);
    Swap8Twice(x);
  }

  /** The oldest byte of a window contributes its table entry, rotated by its age. */
  lemma {:induction false} HashHeadOut(t: Table, a: Byte, v: seq<Byte>)
    ensures WindowHash(t, [a] + v) == Xor(WindowHash(t, v), Rotl(t[a], |v|))
  {
    hide Xor, Rotl1;
    var w := [a] + v;
    XorCancel(t[a], 0);
    if v == [] {
      assert w[..0] == [];
    } else {
      var u := v[..|v| - 1];
      assert w[..|w| - 1] == [a] + u;
      HashHeadOut(t, a, u);
      Rotl1Xor(WindowHash(t, u), Rotl(t[a], |u|));
      XorSwap(Rotl1(WindowHash(t, u)), Rotl(t[a], |v|), t[v[|v| - 1]]);
    }
  }

  /** Rolling one byte in and the oldest out gives the hash of the shifted window. */
  lemma HashRoll(t: Table, w: seq<Byte>, b: Byte)
    requires |w| > 0
    ensures WindowHash(t, w[1..] + [b]) == Xor(Xor(Rotl1(WindowHash(t, w)), Rotl(t[w[0]], |w|)), t[b])
  {
    hide Xor, Rotl1;
    var v := w[1..] + [b];
    assert w + [b] == [w[0]] + v && (w + [b])[..|w|] == w;
    HashHeadOut(t, w[0], v);
    var x, o := Rotl1(WindowHash(t, w)), Rotl(t[w[0]], |w|);
    assert WindowHash(t, w + [b]) == Xor(x, t[b]);
    XorCancel(WindowHash(t, v), o);
    XorSwap(x, t[b], o);
  }

  lemma HashSnoc(t: Table, w: seq<Byte>, i: nat)
    requires i < |w|
    ensures WindowHash(t, w[..i + 1]) == Xor(Rotl1(WindowHash(t, w[..i])), t[w[i]])
  {
    hide Xor, Rotl1;
    assert w[..i + 1][..i] == w[..i];
  }

  /** One step of the initialisation loop over the window. */
  lemma HashInit(h: bv32, x: bv32, n: nat)
    ensures Xor(Rotl(h, n + 1), Rotl(x, n)) == Rotl(Xor(Rotl1(h), x), n)
  {
    hide Xor, Rotl1;
    RotlInner(h, n);
    RotlXor(Rotl1(h), x, n);
  }

  // ---------- what the hash is, in shifts and exclusive ors ----------

  function Shifted(x: bv32, s: bv32): bv32
    requires s <= 32
  {
    Or(Shl(x, s), Shr(x, 32 - s))
  }

  function Or(a: bv32, b: bv32): bv32 {
    a | b
  }

  function Shl(x: bv32, s: bv32): bv32
    requires s <= 32
  {
    x << s
  }

  function Shr(x: bv32, s: bv32): bv32
    requires s <= 32
  {
    x >> s
  }

  /** bits.RotateLeft32: the bits that leave on the left come in on the right. */
  function RotateLeft32(x: bv32, k: bv32): bv32 {
    Shifted(x, k & 31)
  }

  lemma ShiftedOnce(x: bv32, s: bv32)
    requires s < 32
    ensures Rotl1(Shifted(x, s)) == Shifted(x, s + 1)
  {
    hide Rotl1, Shl, Shr, Or, LeftHalf, RightHalf, TopClear;
    ShiftOnce(x, s);
    RotateOr(Shl(x, s), Shr(x, 32 - s));
  }

  /** The two halves of the rotated word after one more bit. */
  function LeftHalf(a: bv32): bv32 { a << 1 }
  function RightHalf(a: bv32, b: bv32): bv32 { (b << 1) | (a >> 31) }
  predicate TopClear(b: bv32) { b >> 31 == 0 }

  lemma ShiftOnce(x: bv32, s: bv32)
    requires s < 32
    ensures LeftHalf(Shl(x, s)) == Shl(x, s + 1)
    ensures RightHalf(Shl(x, s), Shr(x, 32 - s)) == Shr(x, 32 - (s + 1))
    ensures TopClear(Shr(x, 32 - s))
  {
  }

  lemma RotateOr(a: bv32, b: bv32)
    requires TopClear(b)
    ensures Rotl1(Or(a, b)) == Or(LeftHalf(a), RightHalf(a, b))
  {
  }

  lemma ShiftedAround(x: bv32)
    ensures Shifted(x, 32) == x == Shifted(x, 0)
  {
  }

  lemma NextAmount(k: bv32)
    ensures k & 31 < 32 && (k + 1) & 31 == if k & 31 == 31 then 0 else (k & 31) + 1
  {
  }

  lemma NotRotated(x: bv32)
    ensures RotateLeft32(x, 0) == x
  {
    ShiftedAround(x);
  }

  /** Rotating by one more bit. */
  lemma RotateOnce(x: bv32, k: bv32)
    ensures Rotl1(RotateLeft32(x, k)) == RotateLeft32(x, k + 1)
  {
    NextAmount(k);
    var s := k & 31;
    ShiftedOnce(x, s);
    ShiftedAround(x);
    hide Rotl1, Shifted;
  }

  /** The number n as a word. */
  function Amount(n: nat): bv32 {
    if n == 0 then 0 else Amount(n - 1) + 1
  }

  /** n one-bit rotations are a rotation by n bits. */
  lemma {:induction false} RotlIsRotateLeft(x: bv32, n: nat)
    ensures Rotl(x, n) == RotateLeft32(x, Amount(n))
  {
    if n == 0 {
      ShiftedAround(x);
    } else {
      hide Rotl1, RotateLeft32;
      RotlIsRotateLeft(x, n - 1);
      RotateOnce(x, Amount(n - 1));
    }
  }

  /**
   The exclusive or of the table entries of a window, the newest rotated by `age` bits and each
   older one by one bit more.
   */
  function XorOfEntries(t: Table, w: seq<Byte>, age: bv32): bv32 {
    if w == [] then 0 else Xor(XorOfEntries(t, w[..|w| - 1], age + 1), RotateLeft32(t[w[|w| - 1]], age))
  }

  lemma {:induction false} OlderEntries(t: Table, w: seq<Byte>, age: bv32)
    ensures Rotl1(XorOfEntries(t, w, age)) == XorOfEntries(t, w, age + 1)
    decreases |w|
  {
    hide Rotl1, RotateLeft32, Xor;
    if w == [] {
      XorCancel(0, 0);
    } else {
      var u, x := w[..|w| - 1], t[w[|w| - 1]];
      OlderEntries(t, u, age + 1);
      RotateOnce(x, age);
      Rotl1Xor(XorOfEntries(t, u, age + 1), RotateLeft32(x, age));
    }
  }

  /** The window hash is the exclusive or of all entries, each rotated by the number of bytes after it. */
  lemma {:induction false} WindowHashIs(t: Table, w: seq<Byte>)
    ensures WindowHash(t, w) == XorOfEntries(t, w, 0)
    decreases |w|
  {
    hide Rotl1, RotateLeft32, Xor;
    if w != [] {
      var u := w[..|w| - 1];
      WindowHashIs(t, u);
      OlderEntries(t, u, 0);
      NotRotated(t[w[|w| - 1]]);
    }
  }
}
