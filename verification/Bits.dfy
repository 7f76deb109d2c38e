/** Bytes, words and the C bit operators on them, as arithmetic on natural numbers. */
module Bits {
  const WORD := 0x1_0000_0000

  type byte = x: int | 0 <= x < 256
  type word = x: int | 0 <= x < WORD

  function Pow2(n: nat): (p: nat)
    ensures p >= 1
  {
    if n == 0 then 1 else 2 * Pow2(n - 1)
  }

  function B2N(b: bool): nat {
    if b then 1 else 0
  }

  /** Bit i of x. */
  predicate Bit(x: nat, i: nat) {
    if i == 0 then x % 2 == 1 else Bit(x / 2, i - 1)
  }

  function Or(a: nat, b: nat): nat {
    if a == 0 then b
    else if b == 0 then a
    else 2 * Or(a / 2, b / 2) + B2N(a % 2 == 1 || b % 2 == 1)
  }

  function And(a: nat, b: nat): nat {
    if a == 0 || b == 0 then 0
    else 2 * And(a / 2, b / 2) + B2N(a % 2 == 1 && b % 2 == 1)
  }

  /** a & ~b */
  function AndNot(a: nat, b: nat): nat {
    if a == 0 then 0
    else if b == 0 then a
    else 2 * AndNot(a / 2, b / 2) + B2N(a % 2 == 1 && b % 2 == 0)
  }

  lemma {:induction false} BitOfZero(i: nat)
    ensures !Bit(0, i)
  {
    if i > 0 { BitOfZero(i - 1); }
  }

  lemma {:induction false} OrBit(a: nat, b: nat, i: nat)
    ensures Bit(Or(a, b), i) <==> Bit(a, i) || Bit(b, i)
    decreases i
  {
    BitOfZero(i);
    if a != 0 && b != 0 {
      assert Or(a, b) / 2 == Or(a / 2, b / 2);
      if i > 0 { OrBit(a / 2, b / 2, i - 1); }
    }
  }

  lemma {:induction false} AndNotBit(a: nat, b: nat, i: nat)
    ensures Bit(AndNot(a, b), i) <==> Bit(a, i) && !Bit(b, i)
    decreases i
  {
    BitOfZero(i);
    if a != 0 && b != 0 {
      assert AndNot(a, b) / 2 == AndNot(a / 2, b / 2);
      if i > 0 { AndNotBit(a / 2, b / 2, i - 1); }
    }
  }

  lemma {:induction false} OrBound(a: nat, b: nat, n: nat)
    requires a < Pow2(n) && b < Pow2(n)
    ensures Or(a, b) < Pow2(n)
    decreases n
  {
    if a != 0 && b != 0 { OrBound(a / 2, b / 2, n - 1); }
  }

  lemma {:induction false} AndNotBound(a: nat, b: nat)
    ensures AndNot(a, b) <= a
  {
    if a != 0 && b != 0 { AndNotBound(a / 2, b / 2); }
  }

  function OrByte(a: byte, b: byte): byte {
    assert Pow2(8) == 256;
    OrBound(a, b, 8);
    Or(a, b)
  }

  lemma {:induction false} AndBound(a: nat, b: nat)
    ensures And(a, b) <= a
  {
    if a != 0 && b != 0 { AndBound(a / 2, b / 2); }
  }

  function AndByte(a: byte, b: byte): byte {
    AndBound(a, b);
    And(a, b)
  }

  function AndNotByte(a: byte, b: byte): byte {
    AndNotBound(a, b);
    AndNot(a, b)
  }

  /** A multiple of 2^n joined with a smaller number is their sum. */
  lemma {:induction false} OrDisjoint(k: nat, b: nat, n: nat)
    requires b < Pow2(n)
    ensures Or(k * Pow2(n), b) == k * Pow2(n) + b
    decreases n
  {
    if n > 0 && k > 0 && b > 0 {
      Twice(k, n);
      Half(k * Pow2(n - 1), b);
      OrDisjoint(k, b / 2, n - 1);
    }
  }

  /** Testing bit n. */
  lemma {:induction false} AndPow2(a: nat, n: nat)
    ensures And(a, Pow2(n)) == if Bit(a, n) then Pow2(n) else 0
    decreases n
  {
    if a == 0 {
      BitOfZero(n);
    } else if n > 0 {
      AndPow2(a / 2, n - 1);
    }
  }

  lemma {:induction false} BitOfPow2(n: nat, i: nat)
    ensures Bit(Pow2(n), i) <==> i == n
  {
    if n == 0 {
      if i > 0 { BitOfZero(i - 1); }
    } else if i > 0 {
      BitOfPow2(n - 1, i - 1);
    }
  }

  /** The two low bits. */
  lemma LowBits(x: nat)
    ensures x % 4 == B2N(Bit(x, 0)) + 2 * B2N(Bit(x, 1))
  {
    hide Bit;
    BitsOneTwo(x);
    assert x % 4 == x % 2 + 2 * (x / 2 % 2);
  }

  lemma BitsOneTwo(x: nat)
    ensures B2N(Bit(x, 0)) == x % 2 && B2N(Bit(x, 1)) == x / 2 % 2
  {
    assert Bit(x, 1) == Bit(x / 2, 0);
  }

  /** One more bit of a mask of low bits. */
  lemma MaskStep(a: nat, m: nat)
    ensures And(a, 2 * m + 1) == 2 * And(a / 2, m) + a % 2
    ensures AndNot(a, 2 * m + 1) == 2 * AndNot(a / 2, m)
  {
    assert (2 * m + 1) / 2 == m;
  }

  lemma MaskPair(a: nat, m: nat)
    ensures And(a, 4 * m + 3) == 4 * And(a / 4, m) + a % 4
    ensures AndNot(a, 4 * m + 3) == 4 * AndNot(a / 4, m)
  {
    hide And, AndNot;
    MaskStep(a, 2 * m + 1);
    MaskStep(a / 2, m);
    assert a / 2 / 2 == a / 4;
  }

  lemma MaskNibble(a: nat, m: nat)
    ensures And(a, 16 * m + 15) == 16 * And(a / 16, m) + a % 16
    ensures AndNot(a, 16 * m + 15) == 16 * AndNot(a / 16, m)
  {
    hide And, AndNot;
    MaskPair(a, 4 * m + 3);
    MaskPair(a / 4, m);
    assert a / 4 / 4 == a / 16;
  }

  lemma NoMask(a: nat)
    ensures And(a, 0) == 0 && AndNot(a, 0) == a
  {
  }

  /** a & 3 and a & ~3 */
  lemma MaskTwo(a: nat)
    ensures And(a, 3) == a % 4 && AndNot(a, 3) == a - a % 4
  {
    hide And, AndNot;
    MaskPair(a, 0);
    NoMask(a / 4);
  }

  /** a & 0x1F */
  lemma MaskFive(a: nat)
    ensures And(a, 0x1F) == a % 32
  {
    hide And, AndNot;
    MaskNibble(a, 1);
    MaskStep(a / 16, 0);
    NoMask(a / 16 / 2);
  }

  /** a & 0xFF and a & ~0xFF */
  lemma MaskByte(a: nat)
    ensures And(a, 0xFF) == a % 256 && AndNot(a, 0xFF) == a - a % 256
  {
    hide And, AndNot;
    MaskNibble(a, 15);
    MaskNibble(a / 16, 0);
    NoMask(a / 256);
    assert a / 16 / 16 == a / 256;
  }

  /** The lowest bit of an operand that is even. */
  lemma EvenStep(a: nat, b: nat)
    ensures Or(a, 2 * b) == 2 * Or(a / 2, b) + a % 2
    ensures AndNot(a, 2 * b) == 2 * AndNot(a / 2, b) + a % 2
  {
    assert 2 * b / 2 == b;
  }

  lemma PairStep(a: nat, b: nat)
    ensures Or(a, 4 * b) == 4 * Or(a / 4, b) + a % 4
    ensures AndNot(a, 4 * b) == 4 * AndNot(a / 4, b) + a % 4
  {
    hide Or, AndNot;
    EvenStep(a, 2 * b);
    EvenStep(a / 2, b);
    assert a / 2 / 2 == a / 4;
  }

  lemma NibbleStep(a: nat, b: nat)
    ensures Or(a, 16 * b) == 16 * Or(a / 16, b) + a % 16
    ensures AndNot(a, 16 * b) == 16 * AndNot(a / 16, b) + a % 16
  {
    hide Or, AndNot;
    PairStep(a, 4 * b);
    PairStep(a / 4, b);
    assert a / 4 / 4 == a / 16;
  }

  /** The lowest eight bits of an operand whose own are clear. */
  lemma ByteStep(a: nat, b: nat)
    ensures Or(a, 256 * b) == 256 * Or(a / 256, b) + a % 256
    ensures AndNot(a, 256 * b) == 256 * AndNot(a / 256, b) + a % 256
  {
    hide Or, AndNot;
    NibbleStep(a, 16 * b);
    NibbleStep(a / 16, b);
    assert a / 16 / 16 == a / 256;
  }

  /** a & 7 */
  lemma MaskThree(a: nat)
    ensures And(a, 7) == a % 8
  {
    hide And, AndNot;
    MaskPair(a, 1);
    MaskStep(a / 4, 0);
    NoMask(a / 4 / 2);
  }

  lemma {:induction false} PowAdd(a: nat, b: nat)
    ensures Pow2(a + b) == Pow2(a) * Pow2(b)
    decreases a
  {
    if a > 0 {
      PowAdd(a - 1, b);
      assert Pow2(a + b) == 2 * Pow2(a - 1 + b);
      assert 2 * (Pow2(a - 1) * Pow2(b)) == 2 * Pow2(a - 1) * Pow2(b);
    }
  }

  lemma {:induction false} PowGrows(a: nat, b: nat)
    requires a <= b
    ensures Pow2(a) <= Pow2(b)
    decreases b - a
  {
    if a < b { PowGrows(a + 1, b); }
  }

  lemma Twice(p: nat, k: nat)
    requires k > 0
    ensures p * Pow2(k) == 2 * (p * Pow2(k - 1))
  {
  }

  lemma Half(x: nat, s: nat)
    ensures (2 * x + s) / 2 == x + s / 2 && (2 * x + s) % 2 == s % 2
  {
  }

  /** v >> k */
  function Shr(v: nat, k: nat): nat {
    if k == 0 then v else Shr(v / 2, k - 1)
  }

  /** The lowest k bits of v. */
  function Rest(v: nat, k: nat): (r: nat)
    ensures r < Pow2(k)
  {
    if k == 0 then 0 else 2 * Rest(v / 2, k - 1) + v % 2
  }

  /** Shr and Rest are quotient and remainder by 2^k. */
  lemma {:induction false} DivMod(v: nat, k: nat)
    ensures v == Shr(v, k) * Pow2(k) + Rest(v, k)
    decreases k
  {
    if k > 0 {
      DivMod(v / 2, k - 1);
      Twice(Shr(v / 2, k - 1), k);
    }
  }

  lemma Multiples(a: nat, b: nat, p: nat)
    requires a < b
    ensures a * p + p <= b * p
  {
    assert (a + 1) * p <= b * p;
  }

  lemma QuotRem(v: nat, q: nat, p: nat, r: nat)
    requires v == q * p + r && r < p
    ensures v / p == q && v % p == r
  {
    var d := v / p;
    assert v == d * p + v % p;
    if d < q {
      Multiples(d, q, p);
    } else if q < d {
      Multiples(q, d, p);
    }
  }

  lemma ShrRest(v: nat, k: nat)
    ensures Shr(v, k) == v / Pow2(k) && Rest(v, k) == v % Pow2(k)
  {
    DivMod(v, k);
    QuotRem(v, Shr(v, k), Pow2(k), Rest(v, k));
  }

  /** Bit i is what its place in the number says. */
  lemma BitIs(x: nat, i: nat)
    ensures Bit(x, i) <==> x / Pow2(i) % 2 == 1
  {
    ShrRest(x, i);
    BitOfShr(x, i);
  }

  lemma {:induction false} BitOfShr(v: nat, k: nat)
    ensures Bit(v, k) <==> Shr(v, k) % 2 == 1
    ensures Shr(v, k + 1) == Shr(v, k) / 2
  {
    if k > 0 { BitOfShr(v / 2, k - 1); }
  }

  /** ... and the only ones. */
  lemma {:induction false} Parts(p: nat, s: nat, k: nat)
    requires s < Pow2(k)
    ensures Shr(p * Pow2(k) + s, k) == p && Rest(p * Pow2(k) + s, k) == s
    decreases k
  {
    if k > 0 {
      Twice(p, k);
      Half(p * Pow2(k - 1), s);
      Parts(p, s / 2, k - 1);
    }
  }

  /** v & ((1 << k) - 1) */
  lemma {:induction false} MaskLow(v: nat, k: nat)
    ensures And(v, Pow2(k) - 1) == Rest(v, k)
    decreases k
  {
    hide And;
    if k == 0 {
      NoMask(v);
    } else {
      MaskStep(v, Pow2(k - 1) - 1);
      MaskLow(v / 2, k - 1);
    }
  }

  /** A byte joined below. */
  lemma ByteJoin(a: nat, v: byte)
    ensures Or(256 * a, v) == 256 * a + v
  {
    hide Or;
    assert Pow2(8) == 256;
    OrDisjoint(a, v, 8);
  }

  /** lo | hi << 8 */
  function Short(lo: byte, hi: byte): (v: nat)
    ensures v == lo + 0x100 * hi
  {
    var high: nat := hi;
    assert Pow2(8) == 0x100;
    OrDisjoint(high, lo, 8);
    Or(high * 0x100, lo)
  }

  /** A 16-bit number is put together again from its two bytes. */
  lemma ShortSplit(v: nat)
    requires v < 0x1_0000
    ensures Short(v % 0x100, v / 0x100 % 0x100) == v
  {
    hide Short;
  }
}
