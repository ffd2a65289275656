/**
 The division-free boundary test of the chunker. Machine words are modelled as
 integers in [0, 2^32), with every wrap-around written out as a remainder.
 */
module Boundary {

  const WORD := 0x1_0000_0000

  type Word = x: int | 0 <= x < WORD

  function Pow2(k: nat): (r: nat)
    ensures r >= 1
  {
    if k == 0 then 1 else 2 * Pow2(k - 1)
  }

  // ---------- Newton inverse ----------

  /** One line `x *= 2 - d*x` of the source: both products and the difference wrap. */
  function NewtonStep(d: Word, x: Word): Word {
    (x * ((2 - d * x) % WORD)) % WORD
  }

  function ModInverse32(d: Word): Word {
    var x1 := NewtonStep(d, d);
    var x2 := NewtonStep(d, x1);
    var x3 := NewtonStep(d, x2);
    var x4 := NewtonStep(d, x3);
    NewtonStep(d, x4)
  }

  lemma DivByWitness(a: int, m: int, q: int)
    requires m > 0 && a == m * q
    ensures a % m == 0
  {
    QuotientUnique(a, m, q, 0);
  }

  lemma QuotientUnique(a: int, m: int, q: int, r: int)
    requires m > 0 && a == m * q + r && 0 <= r < m
    ensures a / m == q && a % m == r
  {
    var q', r' := a / m, a % m;
    assert a == m * q' + r';
    assert m * (q - q') == r' - r;
    MulSign(m, q - q');
  }

  lemma MulSign(m: int, k: int)
    requires m > 0
    ensures k >= 1 ==> m * k >= m
    ensures k <= -1 ==> m * k <= -m
  {
  }

  /** Each Newton step squares the error, so the number of correct low bits doubles. */
  lemma NewtonStepDoubles(d: Word, x: Word, m: nat, r: nat)
    requires m > 0 && r > 0
    requires (d * x - 1) % m == 0 && (m * m) % r == 0 && WORD % r == 0
    ensures (d * NewtonStep(d, x) - 1) % r == 0
  {
    var e := d * x - 1;
    var a, b, c := e / m, (m * m) / r, WORD / r;
    var t := (2 - d * x) % WORD;
    var u := (2 - d * x) / WORD;
    var x' := NewtonStep(d, x);
    var v := (x * t) / WORD;
    assert e == m * a && m * m == r * b && WORD == r * c;
    assert t == 1 - e - WORD * u && x' == x * t - WORD * v;
    var w := -(u * (1 + e)) - d * v;
    assert d * x' - 1 == -(e * e) + WORD * w by {
      assert d * x' == (d * x) * t - WORD * (d * v) by { NewtonExpand(d, x, t, v, x'); }
      NewtonResidue(e, u, d * v);
    }
    assert e * e == (m * m) * (a * a) by { SquareOfProduct(m, a); }
    assert (m * m) * (a * a) == r * (b * (a * a)) by { Assoc(r, b, a * a); }
    assert WORD * w == r * (c * w) by { Assoc(r, c, w); }
    assert d * x' - 1 == r * (c * w - b * (a * a)) by { Distrib(r, c * w, b * (a * a)); }
    DivByWitness(d * x' - 1, r, c * w - b * (a * a));
  }

  lemma NewtonExpand(d: int, x: int, t: int, v: int, x': int)
    requires x' == x * t - WORD * v
    ensures d * x' == (d * x) * t - WORD * (d * v)
  {
  }

  lemma NewtonResidue(e: int, u: int, dv: int)
    ensures (1 + e) * (1 - e - WORD * u) - WORD * dv - 1 == -(e * e) + WORD * (-(u * (1 + e)) - dv)
  {
  }

  lemma SquareOfProduct(m: int, a: int)
    ensures (m * a) * (m * a) == (m * m) * (a * a)
  {
  }

  lemma Assoc(r: int, b: int, a: int)
    ensures (r * b) * a == r * (b * a)
  {
  }

  lemma Distrib(r: int, a: int, b: int)
    ensures r * a - r * b == r * (a - b)
  {
  }

  lemma OddSquare(k: int) returns (j: int)
    ensures (2 * k + 1) * (2 * k + 1) == 8 * j + 1
  {
    assert (2 * k + 1) * (2 * k + 1) == 4 * (k * (k + 1)) + 1;
    if k % 2 == 0 {
      j := (k / 2) * (k + 1);
      Assoc(2, k / 2, k + 1);
    } else {
      j := k * ((k + 1) / 2);
      Assoc(k, (k + 1) / 2, 2);
    }
  }

  /** Five steps from the three bits of the odd start give the inverse modulo 2^32. */
  lemma ModInverseCorrect(d: Word)
    requires d % 2 == 1
    ensures (d * ModInverse32(d)) % WORD == 1
  {
    hide ModInverse32;
    var j := OddSquare(d / 2);
    assert d * d == 8 * j + 1;
    NewtonChain(d);
    OneModWord(d * ModInverse32(d));
  }

  lemma NewtonChain(d: Word)
    requires (d * d - 1) % 8 == 0
    ensures (d * ModInverse32(d) - 1) % WORD == 0
  {
    hide NewtonStep;
    NewtonStepDoubles(d, d, 8, 64);
    var x1 := NewtonStep(d, d);
    NewtonStepDoubles(d, x1, 64, 4096);
    var x2 := NewtonStep(d, x1);
    NewtonStepDoubles(d, x2, 4096, 0x100_0000);
    var x3 := NewtonStep(d, x2);
    NewtonStepDoubles(d, x3, 0x100_0000, WORD);
    var x4 := NewtonStep(d, x3);
    NewtonStepDoubles(d, x4, WORD, WORD);
  }

  lemma OneModWord(p: int)
    requires (p - 1) % WORD == 0
    ensures p % WORD == 1
  {
  }

  // ---------- the constants of NewChunker ----------

  function TrailingZeros(d: Word): nat
    requires d > 0
  {
    if d % 2 == 1 then 0 else 1 + TrailingZeros(d / 2)
  }

  /** `disc >> trailShift`: the factors of two shifted out. */
  function OddPart(d: Word): (o: Word)
    requires d > 0
    ensures o % 2 == 1 && d == Pow2(TrailingZeros(d)) * o
  {
    if d % 2 == 1 then d else
      Assoc(2, Pow2(TrailingZeros(d / 2)), OddPart(d / 2));
      OddPart(d / 2)
  }

  /** The constants NewChunker precomputes for a discriminator. */
  datatype Constants = Constants(discMinus1: Word, trail: nat, inverseOdd: Word, threshOdd: Word)

  /** `threshOdd` is ceil(2^32 / o), truncated to 32 bits as the conversion in the source does. */
  function NewConstants(d: Word): (c: Constants)
    requires d > 0
    ensures c.trail >= 1
  {
    var o := OddPart(d);
    Constants(d - 1, Pow2(TrailingZeros(d)), ModInverse32(o), ((WORD + o - 1) / o) % WORD)
  }

  /** The test in the hot loop: no division by the discriminator. `trail` is 2^trailShift. */
  predicate Fires(c: Constants, h: Word)
    requires c.trail >= 1
  {
    var adjusted := (h - c.discMinus1) % WORD;
    adjusted % c.trail == 0 && ((adjusted / c.trail) * c.inverseOdd) % WORD < c.threshOdd
  }

  predicate FastTest(d: Word, h: Word)
    requires d > 0
  {
    Fires(NewConstants(d), h)
  }

  /** The reference test of the `Hash` type. */
  predicate IsBoundary(d: Word, h: Word)
    requires d > 0
  {
    h % d == d - 1
  }

  // ---------- correctness ----------

  lemma CeilBounds(o: Word)
    requires o % 2 == 1 && o > 1
    ensures ((WORD + o - 1) / o) % WORD == (WORD - 1) / o + 1
  {
    var q, r := (WORD - 1) / o, (WORD - 1) % o;
    assert WORD - 1 == o * q + r;
    Distrib(o, q, -1);
    if r == o - 1 {
      OddDividesWord(o, q + 1);
    }
    assert WORD + o - 1 == o * (q + 1) + (r + 1 - 1);
    QuotientUnique(WORD + o - 1, o, q + 1, r);
    assert q < WORD / 2 by { MulMono(2, o, q); }
  }

  lemma MulMono(a: int, b: int, q: int)
    requires a <= b && q >= 0
    ensures a * q <= b * q
  {
  }

  /** An odd number above 1 divides no power of two. */
  lemma {:induction false} OddDoesNotDivide(o: int, q: int, k: nat)
    requires o % 2 == 1 && o > 1 && Pow2(k) == o * q
    ensures false
  {
    MulSign(o, q);
    if k > 0 {
      if q % 2 == 1 {
        OddTimesOdd(o / 2, q / 2);
      } else {
        Assoc(o, q / 2, 2);
        OddDoesNotDivide(o, q / 2, k - 1);
      }
    }
  }

  lemma OddDividesWord(o: int, q: int)
    requires o % 2 == 1 && o > 1 && WORD == o * q
    ensures false
  {
    assert Pow2(32) == WORD by {
      assert Pow2(8) == 256;
      Pow2Sum(8, 8);
      Pow2Sum(16, 16);
    }
    OddDoesNotDivide(o, q, 32);
  }

  lemma Pow2Sum(a: nat, b: nat)
    ensures Pow2(a + b) == Pow2(a) * Pow2(b)
  {
    if a > 0 {
      Pow2Sum(a - 1, b);
      Assoc(2, Pow2(a - 1), Pow2(b));
    }
  }

  lemma OddTimesOdd(a: int, b: int)
    ensures (2 * a + 1) * (2 * b + 1) == 2 * (2 * (a * b) + a + b) + 1
  {
  }

  lemma MulModAssoc(u: int, inv: int, o: int, w: int)
    requires (o * inv) % WORD == 1 && w == (u * inv) % WORD
    ensures (w * o - u) % WORD == 0
  {
    var a, b := (u * inv) / WORD, (o * inv) / WORD;
    assert u * inv == WORD * a + w && o * inv == WORD * b + 1;
    assert w * o == (u * inv) * o - (WORD * a) * o;
    assert (u * inv) * o == u * (o * inv) == u * (WORD * b) + u;
    assert w * o - u == WORD * (u * b - a * o);
    DivByWitness(w * o - u, WORD, u * b - a * o);
  }

  /** Multiplying by the inverse lands below the threshold exactly for multiples of o. */
  lemma DivisibilityByInverse(o: Word, inv: Word, u: Word)
    requires o > 1 && (o * inv) % WORD == 1
    ensures (u * inv) % WORD <= (WORD - 1) / o <==> u % o == 0
  {
    if (u * inv) % WORD <= (WORD - 1) / o {
      InverseBelow(o, inv, u);
    }
    if u % o == 0 {
      InverseOfMultiple(o, inv, u / o, u);
    }
  }

  lemma InverseBelow(o: Word, inv: Word, u: Word)
    requires o > 1 && (o * inv) % WORD == 1 && (u * inv) % WORD <= (WORD - 1) / o
    ensures u % o == 0
  {
    var w := (u * inv) % WORD;
    MulModAssoc(u, inv, o, w);
    BelowTop(w, o);
    SmallMultiple(w * o - u);
    DivByWitness(u, o, w);
  }

  lemma BelowTop(w: nat, o: Word)
    requires o > 1 && w <= (WORD - 1) / o
    ensures 0 <= w * o < WORD
  {
    var top := (WORD - 1) / o;
    assert WORD - 1 == o * top + (WORD - 1) % o;
    MulMono(w, top, o);
  }

  lemma SmallMultiple(a: int)
    requires a % WORD == 0 && -WORD < a < WORD
    ensures a == 0
  {
  }

  lemma InverseOfMultiple(o: Word, inv: Word, q: nat, u: Word)
    requires o > 1 && (o * inv) % WORD == 1 && u == o * q
    ensures (u * inv) % WORD == q <= (WORD - 1) / o
  {
    var b, top := (o * inv) / WORD, (WORD - 1) / o;
    assert WORD - 1 == o * top + (WORD - 1) % o;
    if q >= top + 1 {
      MulMono(top + 1, q, o);
      assert false;
    }
    Assoc(q, o, inv);
    assert u * inv == WORD * (q * b) + q by { MulOut(q, b); }
    MulMono(1, o, q);
    QuotientUnique(u * inv, WORD, q * b, q);
  }

  lemma MulOut(q: int, b: int)
    ensures q * (WORD * b + 1) == WORD * (q * b) + q
  {
  }

  lemma SplitDivisibility(p: nat, o: nat, a: nat)
    requires p >= 1 && o >= 1
    ensures a % p == 0 && (a / p) % o == 0 <==> a % (p * o) == 0
  {
    if a % p == 0 && (a / p) % o == 0 {
      var x := (a / p) / o;
      assert a == p * (o * x) == (p * o) * x;
      DivByWitness(a, p * o, x);
    }
    if a % (p * o) == 0 {
      var x := a / (p * o);
      assert a == (p * o) * x == p * (o * x);
      QuotientUnique(a, p, o * x, 0);
      DivByWitness(o * x, o, x);
    }
  }

  /** The fast test asks whether d divides h - (d-1), with that difference taken modulo 2^32. */
  lemma FastTestIsDivisibility(d: Word, h: Word)
    requires d > 0 && OddPart(d) > 1
    ensures FastTest(d, h) <==> ((h - (d - 1)) % WORD) % d == 0
  {
    var o := OddPart(d);
    ModInverseCorrect(o);
    CeilBounds(o);
    FiresIsDivisibility(NewConstants(d), o, h);
  }

  lemma FiresIsDivisibility(c: Constants, o: Word, h: Word)
    requires o > 1 && c.trail >= 1
    requires (o * c.inverseOdd) % WORD == 1 && c.threshOdd == (WORD - 1) / o + 1
    ensures Fires(c, h) <==> ((h - c.discMinus1) % WORD) % (c.trail * o) == 0
  {
    var adj := (h - c.discMinus1) % WORD;
    QuotientBound(adj, c.trail);
    var u: Word := adj / c.trail;
    DivisibilityByInverse(o, c.inverseOdd, u);
    SplitDivisibility(c.trail, o, adj);
  }

  lemma QuotientBound(a: nat, p: nat)
    requires p >= 1
    ensures 0 <= a / p <= a
  {
    var q := a / p;
    assert a == p * q + a % p;
    MulSign(p, q);
    MulMono(1, p, if q >= 0 then q else 0);
  }

  lemma NotADivisor(d: Word, p: nat, o: nat)
    requires d == p * o && o > 1 && o % 2 == 1 && p >= 1
    ensures WORD % d != 0
  {
    if WORD % d == 0 {
      var x := WORD / d;
      assert WORD == d * x;
      Assoc(o, p, x);
      OddDividesWord(o, p * x);
    }
  }

  /**
   For a discriminator with odd part above 1 the fast test agrees with the
   reference test everywhere except at the single wrapped value
   d-1-(2^32 % d), where it fires although the reference does not.
   */
  lemma FastTestExact(d: Word, h: Word)
    requires d > 0 && OddPart(d) > 1
    ensures FastTest(d, h) <==> (IsBoundary(d, h) || h == d - 1 - WORD % d)
    ensures 0 <= d - 1 - WORD % d < d - 1 && !IsBoundary(d, d - 1 - WORD % d)
    ensures (FastTest(d, h) <==> IsBoundary(d, h)) <==> h != d - 1 - WORD % d
  {
    FastTestIsDivisibility(d, h);
    NotADivisor(d, Pow2(TrailingZeros(d)), OddPart(d));
    var odd := d - 1 - WORD % d;
    QuotientUnique(odd, d, 0, odd);
    if h >= d - 1 {
      QuotientUnique(h - (d - 1), WORD, 0, h - (d - 1));
      AlignedRemainder(d, h);
    } else {
      QuotientUnique(h, d, 0, h);
      QuotientUnique(h - (d - 1), WORD, -1, h - (d - 1) + WORD);
      WrappedRemainder(d, h);
    }
  }

  lemma AlignedRemainder(d: int, h: int)
    requires 0 < d && d - 1 <= h
    ensures (h - (d - 1)) % d == 0 <==> h % d == d - 1
  {
    if (h - (d - 1)) % d == 0 {
      QuotientUnique(h, d, (h - (d - 1)) / d, d - 1);
    }
    if h % d == d - 1 {
      assert h - (d - 1) == d * (h / d);
      DivByWitness(h - (d - 1), d, h / d);
    }
  }

  lemma WrappedRemainder(d: int, h: int)
    requires 0 < d < WORD && 0 <= h < d - 1
    ensures (h - (d - 1) + WORD) % d == 0 <==> h == d - 1 - WORD % d
  {
    var q, r := WORD / d, WORD % d;
    var a := h - (d - 1) + WORD;
    assert a == d * q + (h - (d - 1) + r);
    var s := h - (d - 1) + r;
    if s < 0 { QuotientUnique(a, d, q - 1, s + d); } else { QuotientUnique(a, d, q, s); }
  }

  /** For a power of two the threshold 2^32 truncates to 0 and the test never fires. */
  lemma PowerOfTwoNeverFires(d: Word, h: Word)
    requires d > 0 && OddPart(d) == 1
    ensures !FastTest(d, h)
  {
    assert (WORD + 1 - 1) / 1 % WORD == 0;
    assert NewConstants(d).threshOdd == 0;
  }
}
