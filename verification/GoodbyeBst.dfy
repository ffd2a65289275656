/**
 The goodbye table of a catar directory: items sorted by hash are laid out as a
 complete binary search tree in an array, with the children of slot i at 2i+1 and 2i+2.
 */
module GoodbyeBst {
  import opened Boundary

  datatype Item = Item(offset: nat, size: nat, hash: nat)

  predicate Leq(a: Item, b: Item) {
    a.hash < b.hash || (a.hash == b.hash && a.offset <= b.offset)
  }

  ghost predicate Sorted(s: seq<Item>) {
    forall i, j :: 0 <= i < j < |s| ==> Leq(s[i], s[j])
  }

  // ---------- sorting by hash, then offset ----------

  function Insert(x: Item, s: seq<Item>): (r: seq<Item>)
    requires Sorted(s)
    ensures Sorted(r) && multiset(r) == multiset(s) + multiset{x}
  {
    if s == [] || Leq(x, s[0]) then
      [x] + s
    else
      assert s == [s[0]] + s[1..];
      var r := [s[0]] + Insert(x, s[1..]);
      InsertSorted(x, s, Insert(x, s[1..]));
      r
  }

  lemma InsertSorted(x: Item, s: seq<Item>, t: seq<Item>)
    requires s != [] && Sorted(s) && !Leq(x, s[0]) && Sorted(t) && multiset(t) == multiset(s[1..]) + multiset{x}
    ensures Sorted([s[0]] + t)
  {
    forall k | 0 <= k < |t|
      ensures Leq(s[0], t[k])
    {
      assert t[k] in multiset(t);
      if t[k] != x {
        assert t[k] in s[1..];
      }
    }
  }

  function Sort(s: seq<Item>): (r: seq<Item>)
    ensures Sorted(r) && multiset(r) == multiset(s)
  {
    if s == [] then [] else
      assert s == [s[0]] + s[1..];
      Insert(s[0], Sort(s[1..]))
  }

  // ---------- the heap layout ----------

  /** Number of slots at or below i in a heap of n slots. */
  function Count(n: nat, i: nat): nat
    decreases n - i
  {
    if i >= n then 0 else 1 + Count(n, 2 * i + 1) + Count(n, 2 * i + 2)
  }

  function InOrder(s: seq<Item>, i: nat): seq<Item>
    decreases |s| - i
  {
    if i >= |s| then [] else InOrder(s, 2 * i + 1) + [s[i]] + InOrder(s, 2 * i + 2)
  }

  /** Slot j lies in the subtree of slot i. */
  predicate Under(i: nat, j: nat) {
    j == i || (j > i && Under(i, (j - 1) / 2))
  }

  lemma {:induction false} UnderChild(i: nat, c: nat, j: nat)
    requires (c == 2 * i + 1 || c == 2 * i + 2) && Under(c, j)
    ensures Under(i, j)
    decreases j
  {
    if j != c { UnderChild(i, c, (j - 1) / 2); }
  }

  lemma {:induction false} Siblings(i: nat, j: nat)
    ensures !(Under(2 * i + 1, j) && Under(2 * i + 2, j))
    decreases j
  {
    if j > 2 * i + 2 { Siblings(i, (j - 1) / 2); }
  }

  /** The in-order traversal of a subtree reads only the slots of that subtree. */
  lemma {:induction false} InOrderFrame(s: seq<Item>, t: seq<Item>, i: nat)
    requires |s| == |t| && forall j :: 0 <= j < |s| && Under(i, j) ==> s[j] == t[j]
    ensures InOrder(s, i) == InOrder(t, i)
    decreases |s| - i
  {
    if i < |s| {
      forall j, c | 0 <= j < |s| && (c == 2 * i + 1 || c == 2 * i + 2) && Under(c, j)
        ensures s[j] == t[j]
      {
        UnderChild(i, c, j);
      }
      InOrderFrame(s, t, 2 * i + 1);
      InOrderFrame(s, t, 2 * i + 2);
    }
  }

  // ---------- complete subtrees ----------

  function Clamp(x: int, hi: nat): nat {
    if x < 0 then 0 else if x > hi then hi else x
  }

  /**
   The subtree of slot i in a heap of n slots has e levels, all full but perhaps the last;
   p = 2^(e-1) is the width of the last level and b = (i+1)*p one past its first slot number.
   */
  predicate Fits(n: nat, i: nat, e: nat, p: nat, b: nat) {
    && e >= 1 && p == Pow2(e - 1) && b == (i + 1) * p
    && (e >= 2 ==> b + p - 4 < 2 * n) && n <= 2 * b - 1
  }

  lemma FitsInside(n: nat, i: nat, e: nat, p: nat, b: nat)
    requires Fits(n, i, e, p, b) && e >= 2
    ensures i < n && p >= 2 && p % 2 == 0
  {
    assert p == 2 * Pow2(e - 2);
    assert (i + 2) * p >= (i + 2) * 2;
  }

  lemma FitsChildren(n: nat, i: nat, e: nat, p: nat, b: nat)
    requires Fits(n, i, e, p, b) && e >= 2
    ensures Fits(n, 2 * i + 1, e - 1, p / 2, b)
    ensures Fits(n, 2 * i + 2, e - 1, p / 2, b + p / 2)
  {
    var h := Pow2(e - 2);
    assert p == 2 * h;
    assert (2 * i + 2) * h == (i + 1) * (2 * h);
    assert (2 * i + 3) * h == (2 * i + 2) * h + h;
  }

  /** The size of such a subtree in closed form. */
  lemma {:induction false} CountClosed(n: nat, i: nat, e: nat, p: nat, b: nat)
    requires Fits(n, i, e, p, b)
    ensures Count(n, i) == p - 1 + Clamp(n - b + 1, p)
    decreases e
  {
    if e == 1 {
      assert b == i + 1;
      assert Count(n, 2 * i + 1) == 0 && Count(n, 2 * i + 2) == 0;
    } else {
      FitsInside(n, i, e, p, b);
      FitsChildren(n, i, e, p, b);
      CountClosed(n, 2 * i + 1, e - 1, p / 2, b);
      CountClosed(n, 2 * i + 2, e - 1, p / 2, b + p / 2);
    }
  }

  /** The root position chosen by the source for m items in e levels. */
  function SplitAt(m: nat, p: nat): int {
    if m >= p - 1 + p / 2 then (2 * p - 2) / 2 else (2 * p - 2) / 2 - (p - 1 + p / 2 - m)
  }

  /** ... leaves exactly the sizes of the two child subtrees on its sides. */
  lemma SplitFits(n: nat, i: nat, e: nat, p: nat, b: nat)
    requires Fits(n, i, e, p, b) && i < n
    ensures 0 <= SplitAt(Count(n, i), p) == Count(n, 2 * i + 1)
    ensures Count(n, i) - 1 - Count(n, 2 * i + 1) == Count(n, 2 * i + 2)
  {
    CountClosed(n, i, e, p, b);
    if e == 1 {
      assert b == i + 1 && p == 1;
    } else {
      FitsInside(n, i, e, p, b);
      FitsChildren(n, i, e, p, b);
      CountClosed(n, 2 * i + 1, e - 1, p / 2, b);
      CountClosed(n, 2 * i + 2, e - 1, p / 2, b + p / 2);
    }
  }

  /** What `bst` may be called with: as many items as the subtree of slot i has slots. */
  predicate Callable(items: seq<Item>, n: nat, i: nat, e: nat) {
    && |items| == Count(n, i)
    && if e == 0 then items == [] else Fits(n, i, e, Pow2(e - 1), (i + 1) * Pow2(e - 1))
  }

  /** The recursion of `bst` as a function of the array contents. */
  function Fill(items: seq<Item>, out: seq<Item>, i: nat, e: nat): (r: seq<Item>)
    requires Callable(items, |out|, i, e)
    ensures |r| == |out|
    decreases e
  {
    if |items| == 0 then out else
      CallsOk(items, |out|, i, e);
      var k := SplitAt(|items|, Pow2(e - 1));
      var o1 := Fill(items[..k], out[i := items[k]], 2 * i + 1, e - 1);
      Fill(items[k + 1..], o1, 2 * i + 2, e - 1)
  }

  lemma CallsOk(items: seq<Item>, n: nat, i: nat, e: nat)
    requires Callable(items, n, i, e) && |items| > 0
    ensures e > 0 && i < n && 0 <= SplitAt(|items|, Pow2(e - 1)) < |items|
    ensures Callable(items[..SplitAt(|items|, Pow2(e - 1))], n, 2 * i + 1, e - 1)
    ensures Callable(items[SplitAt(|items|, Pow2(e - 1)) + 1..], n, 2 * i + 2, e - 1)
  {
    RootInside(n, i);
    var p, b := Pow2(e - 1), (i + 1) * Pow2(e - 1);
    hide Fits, Count, Pow2, SplitAt;
    SplitFits(n, i, e, p, b);
    ChildLevels(n, i, e, p, b);
  }

  /** Fill puts `items` in order into the subtree of slot i and leaves other slots alone. */
  lemma {:induction false} FillCorrect(items: seq<Item>, out: seq<Item>, i: nat, e: nat)
    requires Callable(items, |out|, i, e)
    ensures InOrder(Fill(items, out, i, e), i) == items
    ensures forall j :: 0 <= j < |out| && !Under(i, j) ==> Fill(items, out, i, e)[j] == out[j]
    decreases e
  {
    hide Callable, InOrder, Under, SplitAt;
    if |items| == 0 {
      EmptySubtree(items, out, i, e);
    } else {
      CallsOk(items, |out|, i, e);
      var k := SplitAt(|items|, Pow2(e - 1));
      var o0 := out[i := items[k]];
      var o1 := Fill(items[..k], o0, 2 * i + 1, e - 1);
      var o2 := Fill(items[k + 1..], o1, 2 * i + 2, e - 1);
      assert Fill(items, out, i, e) == o2;
      hide Fill;
      FillCorrect(items[..k], o0, 2 * i + 1, e - 1);
      FillCorrect(items[k + 1..], o1, 2 * i + 2, e - 1);
      Assembled(items, k, o0, o1, o2, i);
      UnderFrame(i);
    }
  }

  /** Place `items` into the subtree of slot i, in place. */
  method Bst(items: seq<Item>, out: array<Item>, i: nat, e: nat)
    requires Callable(items, out.Length, i, e)
    modifies out
    ensures out[..] == Fill(items, old(out[..]), i, e)
    decreases e
  {
    hide Callable, SplitAt;
    if |items| == 0 {
      return;
    }
    CallsOk(items, out.Length, i, e);
    var k := SplitAt(|items|, Pow2(e - 1));
    ghost var s := out[..];
    out[i] := items[k];
    assert out[..] == s[i := items[k]];
    Bst(items[..k], out, 2 * i + 1, e - 1);
    Bst(items[k + 1..], out, 2 * i + 2, e - 1);
  }

  lemma RootInside(n: nat, i: nat)
    ensures Count(n, i) > 0 ==> i < n
  {
  }

  lemma EmptySubtree(items: seq<Item>, out: seq<Item>, i: nat, e: nat)
    requires Callable(items, |out|, i, e) && items == []
    ensures InOrder(out, i) == []
  {
  }

  /** What the two recursive calls need. */
  lemma ChildLevels(n: nat, i: nat, e: nat, p: nat, b: nat)
    requires e >= 1 && Fits(n, i, e, p, b) && i < n
    ensures if e == 1 then Count(n, 2 * i + 1) == 0 && Count(n, 2 * i + 2) == 0
            else && Fits(n, 2 * i + 1, e - 1, Pow2(e - 2), (2 * i + 2) * Pow2(e - 2))
                 && Fits(n, 2 * i + 2, e - 1, Pow2(e - 2), (2 * i + 3) * Pow2(e - 2))
  {
    if e == 1 { assert b == i + 1; } else { FitsChildren(n, i, e, p, b); }
  }

  lemma UnderFrame(i: nat)
    ensures forall j: nat :: !Under(i, j) ==> j != i && !Under(2 * i + 1, j) && !Under(2 * i + 2, j)
  {
    forall j: nat | !Under(i, j)
      ensures j != i && !Under(2 * i + 1, j) && !Under(2 * i + 2, j)
    {
      if Under(2 * i + 1, j) { UnderChild(i, 2 * i + 1, j); }
      if Under(2 * i + 2, j) { UnderChild(i, 2 * i + 2, j); }
    }
  }

  lemma Assembled(items: seq<Item>, k: nat, s0: seq<Item>, s1: seq<Item>, s2: seq<Item>, i: nat)
    requires |s0| == |s1| == |s2| && i < |s0| && k < |items| && s0[i] == items[k]
    requires forall j :: 0 <= j < |s0| && !Under(2 * i + 1, j) ==> s1[j] == s0[j]
    requires forall j :: 0 <= j < |s0| && !Under(2 * i + 2, j) ==> s2[j] == s1[j]
    requires InOrder(s1, 2 * i + 1) == items[..k] && InOrder(s2, 2 * i + 2) == items[k + 1..]
    ensures InOrder(s2, i) == items
  {
    forall j | 0 <= j < |s0| && Under(2 * i + 1, j)
      ensures s1[j] == s2[j]
    {
      Siblings(i, j);
    }
    InOrderFrame(s1, s2, 2 * i + 1);
    assert items == items[..k] + [items[k]] + items[k + 1..];
  }

  function FloorLog2(n: nat): (l: nat)
    requires n > 0
    ensures Pow2(l) <= n < 2 * Pow2(l)
  {
    if n == 1 then 0 else 1 + FloorLog2(n / 2)
  }

  /** The goodbye table of a list of items. */
  function Table(items: seq<Item>): (out: seq<Item>)
  {
    var sorted := Sort(items);
    if sorted == [] then [] else
      RootFits(|sorted|, FloorLog2(|sorted|));
      Fill(sorted, seq(|sorted|, _ => Item(0, 0, 0)), 0, FloorLog2(|sorted|) + 1)
  }

  /** Every slot holds one item, and the in-order traversal is the sorted list: a complete search tree. */
  /** By hash, and by offset where hashes are equal. */
  predicate HashThenOffset(a: Item, b: Item) {
    a.hash <= b.hash && (a.hash == b.hash ==> a.offset <= b.offset)
  }

  lemma SortedMeans(s: seq<Item>)
    requires Sorted(s)
    ensures forall i, j :: 0 <= i < j < |s| ==> HashThenOffset(s[i], s[j])
  {
  }

  lemma TableIsBst(items: seq<Item>)
    ensures |Table(items)| == |items| && multiset(Table(items)) == multiset(items)
    ensures InOrder(Table(items), 0) == Sort(items) && Sorted(InOrder(Table(items), 0))
    ensures forall i, j :: 0 <= i < j < |Sort(items)| ==> HashThenOffset(Sort(items)[i], Sort(items)[j])
  {
    hide Fits, Count, InOrder, Fill, Callable, Sort, Sorted;
    var sorted := Sort(items);
    SortedMeans(sorted);
    SameSize(sorted, items);
    if sorted == [] {
      EmptyTree();
    } else {
      RootFits(|sorted|, FloorLog2(|sorted|));
      FillCorrect(sorted, seq(|sorted|, _ => Item(0, 0, 0)), 0, FloorLog2(|sorted|) + 1);
      InOrderIsPermutation(Table(items));
    }
  }

  lemma SameSize(s: seq<Item>, t: seq<Item>)
    requires multiset(s) == multiset(t)
    ensures |s| == |t|
  {
    assert |multiset(s)| == |s| && |multiset(t)| == |t|;
  }

  method MakeGoodbyeBst(items: seq<Item>) returns (out: seq<Item>)
    ensures out == Table(items)
  {
    hide Fits, Count, Fill, Callable, Sort;
    var sorted := Sort(items);
    if |sorted| == 0 {
      return [];
    }
    var a := new Item[|sorted|](_ => Item(0, 0, 0));
    assert a[..] == seq(|sorted|, _ => Item(0, 0, 0));
    var e := FloorLog2(|sorted|) + 1;
    RootFits(|sorted|, e - 1);
    Bst(sorted, a, 0, e);
    out := a[..];
  }

  lemma EmptyTree()
    ensures InOrder([], 0) == []
  {
  }

  lemma RootFits(n: nat, l: nat)
    requires n > 0 && Pow2(l) <= n < 2 * Pow2(l)
    ensures forall items: seq<Item> :: |items| == n ==> Callable(items, n, 0, l + 1)
  {
    CountClosed(n, 0, l + 1, Pow2(l), 1 * Pow2(l));
  }

  // ---------- every slot is visited exactly once ----------

  function SumOf(s: seq<Item>, a: nat, b: nat): multiset<Item>
    decreases b
  {
    if a >= b then multiset{} else SumOf(s, a, b - 1) + multiset(InOrder(s, b - 1))
  }

  lemma {:induction false} SumFront(s: seq<Item>, a: nat, b: nat)
    requires a < b
    ensures SumOf(s, a, b) == multiset(InOrder(s, a)) + SumOf(s, a + 1, b)
    decreases b
  {
    hide InOrder;
    if b > a + 1 { SumFront(s, a, b - 1); }
  }

  /** The subtrees of slots k..2k cover the slots from k on. */
  lemma {:induction false} Frontier(s: seq<Item>, k: nat)
    requires k <= |s|
    ensures SumOf(s, k, 2 * k + 1) == multiset(s[k..])
    decreases |s| - k
  {
    hide InOrder, SumOf;
    if k == |s| {
      EmptySum(s, k, 2 * k + 1);
      assert s[k..] == [];
    } else {
      Frontier(s, k + 1);
      SumFront(s, k, 2 * k + 1);
      SumBack(s, k + 1, 2 * k + 3);
      SumBack(s, k + 1, 2 * k + 2);
      NodeItems(s, k);
      assert s[k..] == [s[k]] + s[k + 1..];
      Shuffle(SumOf(s, k + 1, 2 * k + 1), multiset(InOrder(s, 2 * k + 1)), multiset{s[k]}, multiset(InOrder(s, 2 * k + 2)));
    }
  }

  lemma Shuffle(a: multiset<Item>, l: multiset<Item>, x: multiset<Item>, r: multiset<Item>)
    ensures (l + x + r) + a == x + ((a + l) + r)
  {
  }

  lemma SumBack(s: seq<Item>, a: nat, b: nat)
    requires a < b
    ensures SumOf(s, a, b) == SumOf(s, a, b - 1) + multiset(InOrder(s, b - 1))
  {
  }

  lemma NodeItems(s: seq<Item>, k: nat)
    requires k < |s|
    ensures multiset(InOrder(s, k)) == multiset(InOrder(s, 2 * k + 1)) + multiset{s[k]} + multiset(InOrder(s, 2 * k + 2))
  {
  }

  lemma {:induction false} EmptySum(s: seq<Item>, a: nat, b: nat)
    requires |s| <= a
    ensures SumOf(s, a, b) == multiset{}
    decreases b
  {
    if a < b { EmptySum(s, a, b - 1); }
  }

  lemma InOrderIsPermutation(s: seq<Item>)
    ensures multiset(InOrder(s, 0)) == multiset(s)
  {
    Frontier(s, 0);
    assert s[0..] == s;
    assert SumOf(s, 0, 0) == multiset{};
    assert SumOf(s, 0, 1) == multiset(InOrder(s, 0));
  }

  // ---------- lookup ----------

  ghost predicate HasHash(s: seq<Item>, h: nat) {
    exists k :: 0 <= k < |s| && s[k].hash == h
  }

  /** Descend from the root: smaller hashes to the left, larger ones to the right. */
  method Lookup(s: seq<Item>, h: nat) returns (i: nat)
    requires Sorted(InOrder(s, 0))
    ensures i < |s| ==> s[i].hash == h
    ensures i < |s| <==> HasHash(s, h)
  {
    SameHashes(s, h);
    i := 0;
    while i < |s| && s[i].hash != h
      invariant Sorted(InOrder(s, i))
      invariant HasHash(s, h) <==> HasHash(InOrder(s, i), h)
      decreases |s| - i
    {
      DescendOk(s, i, h);
      hide InOrder, Sorted, HasHash;
      i := if h < s[i].hash then 2 * i + 1 else 2 * i + 2;
    }
  }

  lemma SameHashes(s: seq<Item>, h: nat)
    ensures HasHash(s, h) <==> HasHash(InOrder(s, 0), h)
  {
    var t := InOrder(s, 0);
    InOrderIsPermutation(s);
    hide InOrder;
    if HasHash(s, h) {
      var k :| 0 <= k < |s| && s[k].hash == h;
      assert s[k] in multiset(t);
    }
    if HasHash(t, h) {
      var k :| 0 <= k < |t| && t[k].hash == h;
      assert t[k] in multiset(s);
    }
  }

  lemma DescendOk(s: seq<Item>, i: nat, h: nat)
    requires i < |s| && Sorted(InOrder(s, i)) && s[i].hash != h
    ensures var c := if h < s[i].hash then 2 * i + 1 else 2 * i + 2;
            Sorted(InOrder(s, c)) && (HasHash(InOrder(s, i), h) <==> HasHash(InOrder(s, c), h))
  {
    var l, r := InOrder(s, 2 * i + 1), InOrder(s, 2 * i + 2);
    SearchSide(l, s[i], r, h);
  }

  lemma SearchSide(l: seq<Item>, x: Item, r: seq<Item>, h: nat)
    requires Sorted(l + [x] + r) && x.hash != h
    ensures Sorted(l) && Sorted(r)
    ensures HasHash(l + [x] + r, h) <==> HasHash(if h < x.hash then l else r, h)
  {
    HashOfParts(l, x, r, h);
    SortedParts(l, x, r);
  }

  lemma HashOfParts(l: seq<Item>, x: Item, r: seq<Item>, h: nat)
    ensures HasHash(l + [x] + r, h) <==> HasHash(l, h) || x.hash == h || HasHash(r, h)
  {
    var t := l + [x] + r;
    if HasHash(l, h) {
      var k :| 0 <= k < |l| && l[k].hash == h;
      assert t[k].hash == h;
    }
    if HasHash(r, h) {
      var k :| 0 <= k < |r| && r[k].hash == h;
      assert t[|l| + 1 + k].hash == h;
    }
    assert t[|l|] == x;
  }

  lemma SortedParts(l: seq<Item>, x: Item, r: seq<Item>)
    requires Sorted(l + [x] + r)
    ensures Sorted(l) && Sorted(r)
    ensures forall k :: 0 <= k < |l| ==> l[k].hash <= x.hash
    ensures forall k :: 0 <= k < |r| ==> x.hash <= r[k].hash
  {
    var t := l + [x] + r;
    assert t[|l|] == x;
    forall k | 0 <= k < |l|
      ensures l[k].hash <= x.hash
    {
      assert t[k] == l[k];
    }
    forall k | 0 <= k < |r|
      ensures x.hash <= r[k].hash
    {
      assert t[|l| + 1 + k] == r[k];
    }
    forall i, j | 0 <= i < j < |r|
      ensures Leq(r[i], r[j])
    {
      assert t[|l| + 1 + i] == r[i] && t[|l| + 1 + j] == r[j];
    }
    assert forall i, j :: 0 <= i < j < |l| ==> t[i] == l[i] && t[j] == l[j];
  }
}
