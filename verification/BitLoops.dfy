/** The software RBIT and CLZ of the compilers that have no such instruction. */
module BitLoops {
  import opened Bits

  /** The low n bits of v in reverse order. */
  function Reverse(v: nat, n: nat): (r: nat)
    ensures r < Pow2(n)
  {
    if n == 0 then 0 else 2 * Reverse(v, n - 1) + B2N(Bit(v, n - 1))
  }

  // ---- more about bits ----

  lemma WordPow()
    ensures Pow2(32) == WORD
  {
    assert Pow2(8) == 256;
    hide Pow2;
    PowAdd(8, 8);
    PowAdd(16, 16);
  }

  lemma HalfWord()
    ensures Pow2(31) == 0x8000_0000
  {
    WordPow();
    assert Pow2(32) == 2 * Pow2(31);
  }

  lemma {:induction false} HighBitsClear(v: nat, n: nat, i: nat)
    requires v < Pow2(n) && i >= n
    ensures !Bit(v, i)
    decreases n
  {
    if n == 0 {
      BitOfZero(i);
    } else {
      HighBitsClear(v / 2, n - 1, i - 1);
    }
  }

  lemma {:induction false} TopBit(v: nat, n: nat)
    requires v < Pow2(n + 1)
    ensures Bit(v, n) <==> v >= Pow2(n)
  {
    if n > 0 { TopBit(v / 2, n - 1); }
  }

  lemma {:induction false} SameBits(a: nat, b: nat)
    requires forall i: nat :: Bit(a, i) == Bit(b, i)
    ensures a == b
    decreases a + b
  {
    assert Bit(a, 0) == Bit(b, 0);
    if a + b > 0 {
      forall i: nat
        ensures Bit(a / 2, i) == Bit(b / 2, i)
      {
        assert Bit(a, i + 1) == Bit(b, i + 1);
      }
      SameBits(a / 2, b / 2);
    }
  }

  lemma {:induction false} BitOfScaled(v: nat, c: nat, i: nat)
    ensures Bit(v * Pow2(c), i + c) == Bit(v, i)
    decreases c
  {
    if c > 0 {
      Twice(v, c);
      Half(v * Pow2(c - 1), 0);
      BitOfScaled(v, c - 1, i);
    }
  }

  // ---- reversal ----

  /** Bit i goes to bit n - 1 - i. */
  lemma {:induction false} ReverseBit(v: nat, n: nat, i: nat)
    requires i < n
    ensures Bit(Reverse(v, n), n - 1 - i) == Bit(v, i)
    decreases n
  {
    var r := Reverse(v, n - 1);
    Half(r, B2N(Bit(v, n - 1)));
    if i < n - 1 { ReverseBit(v, n - 1, i); }
  }

  lemma ReverseTwice(v: word)
    ensures Reverse(Reverse(v, 32), 32) == v
  {
    WordPow();
    var r := Reverse(v, 32);
    var s := Reverse(r, 32);
    forall i: nat
      ensures Bit(s, i) == Bit(v, i)
    {
      if i < 32 {
        ReverseBit(r, 32, 31 - i);
        ReverseBit(v, 32, i);
      } else {
        HighBitsClear(s, 32, i);
        HighBitsClear(v, 32, i);
      }
    }
    SameBits(s, v);
  }

  /** The loops stop at the highest bit that is set: the rest of the reversal is a shift. */
  lemma {:induction false} ReverseRest(v: nat, n: nat, k: nat)
    requires Shr(v, n) == 0
    ensures Reverse(v, n + k) == Reverse(v, n) * Pow2(k)
    decreases k
  {
    if k > 0 {
      ReverseRest(v, n, k - 1);
      ShrZero(v, n, n + k - 1);
      BitOfShr(v, n + k - 1);
      Twice(Reverse(v, n), k);
    }
  }

  lemma {:induction false} ShrZero(v: nat, n: nat, m: nat)
    requires Shr(v, n) == 0 && n <= m
    ensures Shr(v, m) == 0
    decreases m
  {
    if n < m {
      ShrZero(v, n, m - 1);
      BitOfShr(v, m - 1);
    }
  }

  lemma {:induction false} ShrSmall(v: nat, k: nat)
    requires v < Pow2(k)
    ensures Shr(v, k) == 0
    decreases k
  {
    if k > 0 { ShrSmall(v / 2, k - 1); }
  }

  /** A word that still has bits from position k on: k is a position in the word. */
  lemma BitsLeft(v: word, k: nat)
    requires Shr(v, k) != 0
    ensures k < 32
  {
    hide Pow2, Shr;
    WordPow();
    ShrSmall(v, 32);
    if k >= 32 { ShrZero(v, 32, k); }
  }

  /** One round of the loop, on the low bits. */
  lemma RoundKeeps(v: word, r: word, n: nat)
    requires 1 <= n < 32 && Rest(r, n) == Reverse(v, n)
    ensures var r' := Or(r * 2 % WORD, And(Shr(v, n), 1));
      r' < WORD && Rest(r', n + 1) == Reverse(v, n + 1)
  {
    hide And, Or, Shr, Rest, Reverse, Pow2, Bit;
    var b, half := Shr(v, n) % 2, r * 2 % WORD / 2;
    assert r * 2 % WORD == 2 * half;
    LowBit(Shr(v, n));
    BitOfShr(v, n);
    BelowBit(half, b, n);
    TopDropped(r, n);
    ReverseMore(v, n);
  }

  lemma LowBit(x: nat)
    ensures And(x, 1) == x % 2
  {
    hide And;
    MaskStep(x, 0);
    NoMask(x / 2);
  }

  lemma BelowBit(x: nat, b: nat, n: nat)
    requires b < 2
    ensures Or(2 * x, b) == 2 * x + b && Rest(2 * x + b, n + 1) == 2 * Rest(x, n) + b
  {
    hide Or;
    assert Pow2(1) == 2;
    OrDisjoint(x, b, 1);
    Half(x, b);
  }

  lemma ReverseMore(v: nat, n: nat)
    ensures Reverse(v, n + 1) == 2 * Reverse(v, n) + B2N(Bit(v, n))
  {
    hide Bit;
  }

  /** Shifting out the top bit leaves the bits below it. */
  lemma TopDropped(r: word, n: nat)
    requires n < 32
    ensures Rest(r * 2 % WORD / 2, n) == Rest(r, n)
  {
    hide Pow2, Rest, Shl;
    HalfWord();
    var top, half := r / 0x8000_0000, r * 2 % WORD / 2;
    TopBitOff(r);
    PowAdd(31 - n, n);
    Regroup(top, Pow2(31 - n), Pow2(n));
    ShlIs(top * Pow2(31 - n), n);
    SameRest(top * Pow2(31 - n), half, n);
  }

  lemma TopBitOff(r: word)
    ensures r == r / 0x8000_0000 * 0x8000_0000 + r * 2 % WORD / 2
  {
  }

  lemma Regroup(top: nat, m: nat, p: nat)
    requires m * p == 0x8000_0000
    ensures top * 0x8000_0000 == top * m * p
  {
    calc {
      top * 0x8000_0000;
      top * (m * p);
      top * m * p;
    }
  }

  /** x * 2^n, one doubling at a time. */
  function Shl(x: nat, n: nat): nat {
    if n == 0 then x else 2 * Shl(x, n - 1)
  }

  lemma {:induction false} ShlIs(x: nat, n: nat)
    ensures Shl(x, n) == x * Pow2(n)
    decreases n
  {
    if n > 0 {
      Twice(x, n);
      ShlIs(x, n - 1);
    }
  }

  lemma {:induction false} SameRest(x: nat, v: nat, n: nat)
    ensures Rest(Shl(x, n) + v, n) == Rest(v, n)
    decreases n
  {
    if n > 0 {
      Half(Shl(x, n - 1), v);
      SameRest(x, v / 2, n - 1);
    }
  }

  /** The shift at the end drops everything above the reversed bits. */
  lemma LastShift(v: word, r: word, n: nat)
    requires 1 <= n <= 32 && Rest(r, n) == Reverse(v, n) && Shr(v, n) == 0
    ensures r * Pow2(32 - n) % WORD == Reverse(v, 32)
  {
    ReverseRest(v, n, 32 - n);
    DivMod(r, n);
    PowAdd(n, 32 - n);
    WordPow();
    ScaleParts(r, Shr(r, n), Rest(r, n), Pow2(n), Pow2(32 - n));
    SmallRemainder(r * Pow2(32 - n), Shr(r, n), Rest(r, n) * Pow2(32 - n));
  }

  lemma ScaleParts(r: nat, x: nat, rest: nat, m: nat, u: nat)
    requires r == x * m + rest && rest < m && m * u == WORD
    ensures r * u == x * WORD + rest * u && rest * u < WORD
  {
    calc {
      (x * m + rest) * u;
      x * m * u + rest * u;
      x * (m * u) + rest * u;
    }
    assert (rest + 1) * u <= m * u;
  }

  lemma SmallRemainder(v: nat, x: nat, y: nat)
    requires v == x * WORD + y && y < WORD
    ensures v % WORD == y
  {
  }

  /** One iteration of either loop. */
  lemma LoopStep(v: word, r: word, n: nat)
    requires n >= 1 && Rest(r, n) == Reverse(v, n) && Shr(v, n) != 0
    ensures n < 32 && Shr(v, n) / 2 == Shr(v, n + 1)
    ensures var r' := Or(r * 2 % WORD, And(Shr(v, n), 1));
      r' < WORD && Rest(r', n + 1) == Reverse(v, n + 1)
  {
    hide Rest, Reverse, Shr, And, Or, Pow2;
    BitsLeft(v, n);
    RoundKeeps(v, r, n);
    BitOfShr(v, n);
  }

  /** The version of cmsis_iccarm.h. The counter never goes below zero. */
  method RbitIar(value: word) returns (reversed: word)
    ensures reversed == Reverse(value, 32)
  {
    var sc, r, v: nat := 31, value, value / 2;
    ReverseStart(value);
    hide Rest, Reverse, Shr, And, Or, Pow2;
    while v != 0
      invariant 0 <= sc <= 31 && 0 <= r < WORD
      invariant v == Shr(value, 32 - sc)
      invariant Rest(r, 32 - sc) == Reverse(value, 32 - sc)
      decreases v
    {
      LoopStep(value, r, 32 - sc);
      r := r * 2 % WORD;
      r := Or(r, And(v, 1));
      sc := sc - 1;
      v := v / 2;
    }
    LastShift(value, r, 32 - sc);
    reversed := r * Pow2(sc) % WORD;
  }

  /** The version of cmsis_gcc.h. */
  method RbitGcc(value: word) returns (result: word)
    ensures result == Reverse(value, 32)
  {
    var s, r, v: nat := 4 * 8 - 1, value, value / 2;
    ReverseStart(value);
    hide Rest, Reverse, Shr, And, Or, Pow2;
    while v != 0
      invariant 0 <= s <= 31 && 0 <= r < WORD
      invariant v == Shr(value, 32 - s)
      invariant Rest(r, 32 - s) == Reverse(value, 32 - s)
      decreases v
    {
      LoopStep(value, r, 32 - s);
      r := r * 2 % WORD;
      r := Or(r, And(v, 1));
      s := s - 1;
      v := v / 2;
    }
    LastShift(value, r, 32 - s);
    result := r * Pow2(s) % WORD;
  }

  lemma ReverseStart(v: nat)
    ensures Rest(v, 1) == Reverse(v, 1) && Shr(v, 1) == v / 2
  {
  }

  // ---- leading and trailing zeros ----

  /** Leading zeros among the low n bits. */
  function Leading(v: nat, n: nat): nat {
    if n == 0 || Bit(v, n - 1) then 0 else 1 + Leading(v, n - 1)
  }

  /** Trailing zeros among the low n bits. */
  function Trailing(v: nat, n: nat): nat {
    if n == 0 || v % 2 == 1 then 0 else 1 + Trailing(v / 2, n - 1)
  }

  lemma {:induction false} SkipLeading(v: nat, n: nat, m: nat)
    requires m <= n && v < Pow2(m)
    ensures Leading(v, n) == n - m + Leading(v, m)
    decreases n
  {
    if m < n {
      HighBitsClear(v, m, n - 1);
      SkipLeading(v, n - 1, m);
    }
  }

  method Clz(data: word) returns (zeros: nat)
    ensures zeros == Leading(data, 32)
    ensures if data == 0 then zeros == 32 else zeros < 32 && Pow2(31 - zeros) <= data < Pow2(32 - zeros)
  {
    WordPow();
    HalfWord();
    if data == 0 {
      SkipLeading(0, 32, 0);
      return 32;
    }
    hide Pow2, And, Bit, Leading;
    var count, mask: nat := 0, 0x8000_0000;
    while And(data, mask) == 0
      invariant 0 <= count <= 31 && mask == Pow2(31 - count) && data < Pow2(32 - count)
      decreases 31 - count
    {
      MaskMoves(data, count);
      count := count + 1;
      mask := mask / 2;
    }
    MaskStops(data, count);
    TopBit(data, 31 - count);
    zeros := count;
  }

  /** The mask has not met a bit: there is a bit below it. */
  lemma MaskMoves(data: nat, count: nat)
    requires data != 0 && count <= 31 && data < Pow2(32 - count) && And(data, Pow2(31 - count)) == 0
    ensures count < 31 && data < Pow2(31 - count) && Pow2(31 - count) / 2 == Pow2(30 - count)
  {
    hide And, Bit;
    AndPow2(data, 31 - count);
    TopBit(data, 31 - count);
  }

  /** The mask has met the highest bit. */
  lemma MaskStops(data: nat, count: nat)
    requires count <= 31 && data < Pow2(32 - count) && And(data, Pow2(31 - count)) != 0
    ensures Leading(data, 32) == count && Bit(data, 31 - count)
  {
    hide And, Bit, Pow2;
    AndPow2(data, 31 - count);
    SkipLeading(data, 32, 32 - count);
  }

  /** The reversal, from the other end. */
  lemma {:induction false} ReverseFromLow(v: nat, n: nat)
    requires n > 0
    ensures Reverse(v, n) == v % 2 * Pow2(n - 1) + Reverse(v / 2, n - 1)
  {
    if n > 1 {
      ReverseFromLow(v, n - 1);
      Twice(v % 2, n - 1);
      assert Bit(v, n - 1) == Bit(v / 2, n - 2);
    }
  }

  /** Leading zeros of the reversal are the trailing zeros, for every value. */
  lemma {:induction false} ClzOfRbit(v: nat, n: nat)
    ensures Leading(Reverse(v, n), n) == Trailing(v, n)
    decreases n
  {
    hide Reverse, Pow2, Bit;
    if n > 0 {
      ReverseFromLow(v, n);
      TopBit(Reverse(v, n), n - 1);
      if v % 2 == 0 {
        ClzOfRbit(v / 2, n - 1);
        assert !Bit(Reverse(v, n), n - 1) by { assert Reverse(v, n) < Pow2(n - 1); }
      } else {
        assert Bit(Reverse(v, n), n - 1) by { assert Reverse(v, n) >= Pow2(n - 1); }
      }
    }
  }

  /** Trailing zeros: that many bits are clear, and the next one is set; or all of them, if there is none. */
  lemma {:induction false} TrailingMeans(v: nat, n: nat)
    requires v < Pow2(n)
    ensures v == 0 ==> Trailing(v, n) == n
    ensures v != 0 ==> Trailing(v, n) < n && Bit(v, Trailing(v, n))
    ensures forall i :: 0 <= i < Trailing(v, n) ==> !Bit(v, i)
    decreases n
  {
    if n > 0 && v % 2 == 0 {
      TrailingMeans(v / 2, n - 1);
      forall i | 0 <= i < Trailing(v, n)
        ensures !Bit(v, i)
      {
        if i > 0 { assert !Bit(v / 2, i - 1); }
      }
    }
  }

  lemma {:induction false} LeadingMeans(v: nat, n: nat)
    requires v != 0 && v < Pow2(n)
    ensures Leading(v, n) < n && v < Pow2(n - Leading(v, n)) && Bit(v, n - 1 - Leading(v, n))
  {
    TopBit(v, n - 1);
    if !Bit(v, n - 1) { LeadingMeans(v, n - 1); }
  }

  /** Shifted left by its leading zeros, a number other than zero has its top bit set and loses nothing. */
  lemma Normalised(v: word)
    requires v != 0
    ensures var c := Leading(v, 32);
      c < 32 && v * Pow2(c) < WORD && Bit(v * Pow2(c), 31)
  {
    WordPow();
    LeadingMeans(v, 32);
    var c := Leading(v, 32);
    PowAdd(32 - c, c);
    ScaleLess(v, Pow2(32 - c), Pow2(c));
    BitOfScaled(v, c, 31 - c);
  }

  lemma ScaleLess(v: nat, a: nat, p: nat)
    requires v < a && p > 0
    ensures v * p < a * p
  {
  }
}
