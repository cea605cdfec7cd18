/** Bitwise arithmetic of C's unsigned integers, on naturals. */
module Bits {

  type byte = x: int | 0 <= x < 256

  function Pow2(n: nat): (p: nat)
    ensures p > 0
  {
    if n == 0 then 1 else 2 * Pow2(n - 1)
  }

  predicate Bit(x: nat, i: nat) {
    if i == 0 then x % 2 == 1 else Bit(x / 2, i - 1)
  }

  function BoolBit(b: bool): (r: nat) {
    if b then 1 else 0
  }

  /** `x & y` */
  function And(x: nat, y: nat): nat
    decreases x
  {
    if x == 0 || y == 0 then 0 else BoolBit(x % 2 == 1 && y % 2 == 1) + 2 * And(x / 2, y / 2)
  }

  /** `x | y` */
  function Or(x: nat, y: nat): nat
    decreases x
  {
    if x == 0 then y else BoolBit(x % 2 == 1 || y % 2 == 1) + 2 * Or(x / 2, y / 2)
  }

  /** `x << k`, before truncation to the width of its type */
  function Shl(x: nat, k: nat): nat {
    x * Pow2(k)
  }

  /** `x >> k` */
  function Shr(x: nat, k: nat): nat {
    if k == 0 then x else Shr(x / 2, k - 1)
  }

  /** The k lowest bits of x, as a number */
  function Low(x: nat, k: nat): nat {
    if k == 0 then 0 else x % 2 + 2 * Low(x / 2, k - 1)
  }

  lemma Pow2Values()
    ensures Pow2(0) == 1 && Pow2(1) == 2 && Pow2(2) == 4 && Pow2(3) == 8
    ensures Pow2(4) == 16 && Pow2(5) == 32 && Pow2(6) == 64 && Pow2(7) == 128 && Pow2(8) == 256
  {
    assert Pow2(4) == 16;
  }

  lemma {:induction false} Pow2Add(a: nat, b: nat)
    ensures Pow2(a + b) == Pow2(a) * Pow2(b)
  {
    if a > 0 {
      Pow2Add(a - 1, b);
      Double(Pow2(b), Pow2(a - 1));
    }
  }

  lemma {:induction false} Pow2Monotone(a: nat, b: nat)
    requires a <= b
    ensures Pow2(a) <= Pow2(b)
  {
    if a < b { Pow2Monotone(a, b - 1); }
  }

  lemma MulGap(a: int, b: int, d: nat)
    ensures a < b ==> a * d + d <= b * d
  {
    if a < b {
      var k := b - a - 1;
      assert b * d == a * d + d + k * d by { assert b == a + 1 + k; Distribute(a, 1 + k, d); Distribute(1, k, d); }
      assert k * d >= 0;
    }
  }

  lemma Distribute(a: int, b: int, d: int)
    ensures (a + b) * d == a * d + b * d
  {}

  lemma QuotientUnique(x: int, d: nat, q: int, r: nat)
    requires r < d && x == q * d + r
    ensures x / d == q && x % d == r
  {
    assert x == (x / d) * d + x % d;
    MulGap(q, x / d, d);
    MulGap(x / d, q, d);
  }

  lemma Double(a: int, b: int)
    ensures a * (2 * b) == 2 * (a * b)
  {}

  lemma {:induction false} ShrLow(x: nat, k: nat)
    ensures x == Shr(x, k) * Pow2(k) + Low(x, k)
    ensures Low(x, k) < Pow2(k)
  {
    if k > 0 {
      ShrLow(x / 2, k - 1);
      Double(Shr(x / 2, k - 1), Pow2(k - 1));
    }
  }

  /** `>>` divides by a power of two, and the bits it drops are the remainder. */
  lemma ShrIsDivision(x: nat, k: nat)
    ensures Shr(x, k) == x / Pow2(k)
    ensures Low(x, k) == x % Pow2(k)
  {
    ShrLow(x, k);
    QuotientUnique(x, Pow2(k), Shr(x, k), Low(x, k));
  }

  lemma {:induction false} BitIsShr(x: nat, i: nat)
    ensures Bit(x, i) <==> Shr(x, i) % 2 == 1
  {
    if i > 0 { BitIsShr(x / 2, i - 1); }
  }

  lemma Halves(b: bool, h: nat)
    ensures (BoolBit(b) + 2 * h) % 2 == BoolBit(b)
    ensures (BoolBit(b) + 2 * h) / 2 == h
  {}

  lemma AndStep(x: nat, y: nat)
    ensures And(x, y) == BoolBit(x % 2 == 1 && y % 2 == 1) + 2 * And(x / 2, y / 2)
  {}

  lemma AndHalves(x: nat, y: nat)
    ensures And(x, y) % 2 == BoolBit(x % 2 == 1 && y % 2 == 1)
    ensures And(x, y) / 2 == And(x / 2, y / 2)
  {
    AndStep(x, y);
    hide And, BoolBit;
    Halves(x % 2 == 1 && y % 2 == 1, And(x / 2, y / 2));
  }

  lemma OrStep(x: nat, y: nat)
    ensures Or(x, y) == BoolBit(x % 2 == 1 || y % 2 == 1) + 2 * Or(x / 2, y / 2)
  {}

  lemma OrHalves(x: nat, y: nat)
    ensures Or(x, y) % 2 == BoolBit(x % 2 == 1 || y % 2 == 1)
    ensures Or(x, y) / 2 == Or(x / 2, y / 2)
  {
    OrStep(x, y);
    hide Or, BoolBit;
    Halves(x % 2 == 1 || y % 2 == 1, Or(x / 2, y / 2));
  }

  lemma {:induction false} BitOfAnd(x: nat, y: nat, i: nat)
    ensures Bit(And(x, y), i) <==> Bit(x, i) && Bit(y, i)
    decreases i
  {
    AndHalves(x, y);
    if i > 0 { BitOfAnd(x / 2, y / 2, i - 1); }
  }

  lemma {:induction false} BitOfOr(x: nat, y: nat, i: nat)
    ensures Bit(Or(x, y), i) <==> Bit(x, i) || Bit(y, i)
    decreases i
  {
    OrHalves(x, y);
    if i > 0 { BitOfOr(x / 2, y / 2, i - 1); }
  }

  lemma {:induction false} ZeroHasNoBit(i: nat)
    ensures !Bit(0, i)
  {
    if i > 0 { ZeroHasNoBit(i - 1); }
  }

  /** A mask of the k lowest bits keeps exactly those. */
  lemma {:induction false} AndLowMask(x: nat, k: nat)
    ensures And(x, Pow2(k) - 1) == Low(x, k)
    decreases k
  {
    if x == 0 {
      ZeroLow(k);
    } else if k > 0 {
      AndLowMask(x / 2, k - 1);
      var m := Pow2(k) - 1;
      assert m % 2 == 1 && m / 2 == Pow2(k - 1) - 1;
    }
  }

  lemma {:induction false} ZeroLow(k: nat)
    ensures Low(0, k) == 0
  {
    if k > 0 { ZeroLow(k - 1); }
  }

  /** Or-ing a value below 2^k with a multiple of 2^k adds the two. */
  lemma {:induction false} OrDisjoint(x: nat, y: nat, k: nat)
    requires x < Pow2(k)
    ensures Or(x, Shl(y, k)) == x + Shl(y, k)
    decreases k
  {
    if x > 0 {
      var z := Shl(y, k);
      assert z == 2 * Shl(y, k - 1) by { Double(y, Pow2(k - 1)); }
      OrDisjoint(x / 2, y, k - 1);
    }
  }

  lemma {:induction false} OrCommutes(x: nat, y: nat)
    ensures Or(x, y) == Or(y, x)
    decreases x
  {
    if x == 0 {
      OrZero(y);
    } else if y == 0 {
      OrZero(x);
    } else {
      OrCommutes(x / 2, y / 2);
    }
  }

  lemma {:induction false} OrZero(x: nat)
    ensures Or(x, 0) == x
  {
    if x > 0 { OrZero(x / 2); }
  }

  lemma {:induction false} OrBounded(x: nat, y: nat, k: nat)
    requires x < Pow2(k) && y < Pow2(k)
    ensures Or(x, y) < Pow2(k)
    decreases k
  {
    if x > 0 { OrBounded(x / 2, y / 2, k - 1); }
  }

  /** Bit `j` of 2^i is set just when i equals j. */
  lemma {:induction false} BitOfPow2(i: nat, j: nat)
    ensures Bit(Pow2(i), j) <==> i == j
  {
    if i == 0 {
      if j > 0 { ZeroHasNoBit(j - 1); }
    } else if j > 0 {
      assert Pow2(i) / 2 == Pow2(i - 1);
      BitOfPow2(i - 1, j - 1);
    }
  }

  /** Bits at and above position k of a value below 2^k are clear. */
  lemma {:induction false} NoHighBit(x: nat, k: nat, i: nat)
    requires x < Pow2(k) && k <= i
    ensures !Bit(x, i)
    decreases i
  {
    if i > 0 {
      if k == 0 {
        ZeroHasNoBit(i - 1);
      } else {
        NoHighBit(x / 2, k - 1, i - 1);
      }
    }
  }

  lemma {:induction false} LowSmall(x: nat, k: nat)
    requires x < Pow2(k)
    ensures Low(x, k) == x
  {
    if k > 0 { LowSmall(x / 2, k - 1); }
  }

  /** Keeping the n lowest bits of the k lowest bits, n <= k, keeps the n lowest. */
  lemma {:induction false} LowLow(x: nat, n: nat, k: nat)
    requires n <= k
    ensures Low(Low(x, k), n) == Low(x, n)
  {
    if n > 0 {
      assert Low(x, k) / 2 == Low(x / 2, k - 1);
      LowLow(x / 2, n - 1, k - 1);
    }
  }

  lemma {:induction false} ShrAdd(x: nat, a: nat, b: nat)
    ensures Shr(x, a + b) == Shr(Shr(x, a), b)
  {
    if a > 0 { ShrAdd(x / 2, a - 1, b); }
  }

  /** Bits at position k and above do not reach the bits below n, n <= k. */
  lemma {:induction false} LowOfSum(x: nat, y: nat, k: nat, n: nat)
    requires n <= k
    ensures Low(x + Shl(y, k), n) == Low(x, n)
  {
    if n > 0 {
      Double(y, Pow2(k - 1));
      assert (x + Shl(y, k)) / 2 == x / 2 + Shl(y, k - 1);
      LowOfSum(x / 2, y, k - 1, n - 1);
    }
  }

  lemma {:induction false} ShrOfSum(x: nat, y: nat, k: nat, n: nat)
    requires n <= k
    ensures Shr(x + Shl(y, k), n) == Shr(x, n) + Shl(y, k - n)
  {
    if n > 0 {
      Double(y, Pow2(k - 1));
      assert (x + Shl(y, k)) / 2 == x / 2 + Shl(y, k - 1);
      ShrOfSum(x / 2, y, k - 1, n - 1);
    }
  }

  /** Shifting a mask of a ones right by b leaves a mask of a - b ones. */
  lemma {:induction false} ShrMask(a: nat, b: nat)
    requires b <= a
    ensures Shr(Pow2(a) - 1, b) == Pow2(a - b) - 1
  {
    if b > 0 {
      assert (Pow2(a) - 1) / 2 == Pow2(a - 1) - 1;
      ShrMask(a - 1, b - 1);
    }
  }

  lemma {:induction false} BitOfLow(x: nat, k: nat, i: nat)
    ensures Bit(Low(x, k), i) <==> i < k && Bit(x, i)
    decreases i
  {
    if k == 0 {
      ZeroHasNoBit(i);
    } else if i > 0 {
      assert Low(x, k) / 2 == Low(x / 2, k - 1);
      BitOfLow(x / 2, k - 1, i - 1);
    }
  }

  lemma {:induction false} BitOfShr(x: nat, k: nat, i: nat)
    ensures Bit(Shr(x, k), i) <==> Bit(x, k + i)
  {
    if k > 0 { BitOfShr(x / 2, k - 1, i); }
  }

  lemma ShlStep(y: nat, k: nat)
    requires k > 0
    ensures Shl(y, k) == 2 * Shl(y, k - 1)
  {
    Double(y, Pow2(k - 1));
  }

  /** A mask with k clear low bits ignores them. */
  lemma {:induction false} AndShifted(x: nat, y: nat, k: nat)
    ensures And(x, Shl(y, k)) == Shl(And(Shr(x, k), y), k)
    decreases k
  {
    hide And;
    if k > 0 {
      hide Shl;
      ShlStep(y, k);
      ShlStep(And(Shr(x, k), y), k);
      AndHalves(x, Shl(y, k));
      AndShifted(x / 2, y, k - 1);
    }
  }
}
