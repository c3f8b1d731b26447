/**
  Bit operations on non-negative integers of unbounded width, the way the
  Python solutions see their `int` argument.

  `BitCount` is `int.bit_count()` on a non-negative integer and is the
  specification every Python solution is proved against. `And` is Python's
  `&` and `Shr` is Python's `>>` on non-negative integers; `Low(x, k)` is
  `x` modulo `2^k`, the lowest `k` bits of `x`. All of them are defined one
  bit at a time, by halving, so that every proof divides only by 2 (or by
  the constants 16 and 256).

  A few lemmas (`BitCountOf`, `LowShrOf`, `NibbleSplit`, `QuotientPositive`)
  take the parts of a number as parameters tied to it by their `requires`:
  the solver then reasons about named values instead of unfolding the
  recursive definitions on compound arguments.
*/
module NatBits {

  /** 2 raised to the power `k`. */
  function Pow2(k: nat): (r: nat)
    ensures r >= 1
  {
    if k == 0 then 1 else 2 * Pow2(k - 1)
  }

  /** Python's `x >> k` on a non-negative `x`: `x` halved `k` times. */
  function Shr(x: nat, k: nat): nat {
    if k == 0 then x else Shr(x / 2, k - 1)
  }

  /** The lowest `k` bits of `x`, as a number. */
  function Low(x: nat, k: nat): nat {
    if k == 0 then 0 else x % 2 + 2 * Low(x / 2, k - 1)
  }

  /** The number of 1-bits in the binary representation of `x`. */
  function BitCount(x: nat): (r: nat)
    ensures r == 0 <==> x == 0
  {
    if x == 0 then 0 else x % 2 + BitCount(x / 2)
  }

  /** Python's `&` on two non-negative integers, bit by bit from the lowest. */
  function And(a: nat, b: nat): (r: nat)
    ensures r <= a && r <= b
  {
    if a == 0 || b == 0 then 0
    else 2 * And(a / 2, b / 2) + (if a % 2 == 1 && b % 2 == 1 then 1 else 0)
  }

  // ---------------------------------------------------------------------
  // Powers of two, shifts and low bits
  // ---------------------------------------------------------------------

  lemma {:induction false} Pow2Add(a: nat, b: nat)
    ensures Pow2(a + b) == Pow2(a) * Pow2(b)
    decreases a
  {
    if a > 0 {
      Pow2Add(a - 1, b);
      assert Pow2(a + b) == 2 * Pow2(a - 1 + b);
    }
  }

  /** The powers of two that byte and word boundaries fall on. */
  lemma Pow2Bytes()
    ensures Pow2(8) == 256 && Pow2(16) == 65536
    ensures Pow2(24) == 16777216 && Pow2(32) == 4294967296
  {
    Pow2Add(8, 8);
    Pow2Add(16, 8);
    Pow2Add(16, 16);
  }

  /** `x` is `x >> k` shifted back up plus its lowest `k` bits, which lie below `2^k`. */
  lemma {:induction false} ShrLow(x: nat, k: nat)
    ensures x == Pow2(k) * Shr(x, k) + Low(x, k)
    ensures Low(x, k) < Pow2(k)
    decreases k
  {
    if k > 0 {
      var p, s, l := Pow2(k - 1), Shr(x / 2, k - 1), Low(x / 2, k - 1);
      ShrLow(x / 2, k - 1);
      assert x == 2 * (p * s + l) + x % 2;
      assert 2 * (p * s) == (2 * p) * s;
    }
  }

  /** Shifting by 4 and keeping 4 bits are division and remainder by 16. */
  lemma ShrLowNibble(x: nat)
    ensures Shr(x, 4) == x / 16 && Low(x, 4) == x % 16
  {
    ShrLow(x, 4);
    assert Pow2(4) == 16;
  }

  /** The count of a number is the count of its low nibble `l` plus that of the rest `h`. */
  lemma NibbleSplit(x: nat, h: nat, l: nat)
    requires h == x / 16 && l == x % 16
    ensures BitCount(x) == BitCount(l) + BitCount(h)
  {
    ShrLowNibble(x);
    BitCountSplit(x, 4);
  }

  /** Shifting by 8 and keeping 8 bits are division and remainder by 256. */
  lemma ShrLowByte(x: nat)
    ensures Shr(x, 8) == x / 256 && Low(x, 8) == x % 256
  {
    ShrLow(x, 8);
    Pow2Bytes();
  }

  /** Shifting right by `a` and then by `b` is shifting right by `a + b`. */
  lemma {:induction false} ShrShr(x: nat, a: nat, b: nat)
    ensures Shr(Shr(x, a), b) == Shr(x, a + b)
    decreases a
  {
    if a > 0 {
      ShrShr(x / 2, a - 1, b);
    }
  }

  /** A number below `2^k` is its own lowest `k` bits. */
  lemma {:induction false} LowSmall(x: nat, k: nat)
    requires x < Pow2(k)
    ensures Low(x, k) == x
    decreases k
  {
    if k > 0 {
      LowSmall(x / 2, k - 1);
    }
  }

  // ---------------------------------------------------------------------
  // Counting
  // ---------------------------------------------------------------------

  /** The count of `x = 2 * q + c` from the count of `q`. */
  lemma BitCountOf(x: nat, q: nat, c: nat)
    requires c < 2 && x == 2 * q + c
    ensures BitCount(x) == BitCount(q) + c
  {
    assert x / 2 == q && x % 2 == c;
  }

  /** The count of the lowest `w` bits: the low bit plus the count of the next `w - 1`. */
  lemma LowBitCountStep(x: nat, w: nat)
    requires w > 0
    ensures BitCount(Low(x, w)) == x % 2 + BitCount(Low(x / 2, w - 1))
  {
    BitCountOf(Low(x, w), Low(x / 2, w - 1), x % 2);
  }

  /** One step of `Low`, with the halved number and width named. */
  lemma LowStep(x: nat, w: nat)
    requires w > 0
    ensures Low(x, w) == x % 2 + 2 * Low(x / 2, w - 1)
  {}

  /** `Low` and `Shr` of `y = c + 2 * q`, in terms of `q`. */
  lemma LowShrOf(y: nat, c: nat, q: nat, k: nat, k': nat)
    requires c < 2 && y == c + 2 * q && k == k' + 1
    ensures Low(y, k) == c + 2 * Low(q, k') && Shr(y, k) == Shr(q, k')
  {
    assert y % 2 == c && y / 2 == q;
  }

  /** The lowest `a` bits of the lowest `a + b` bits of `x` are the lowest `a` bits of `x`. */
  lemma {:induction false} LowLow(x: nat, a: nat, b: nat)
    ensures Low(Low(x, a + b), a) == Low(x, a)
    decreases a
  {
    if a > 0 {
      var h, a', c := x / 2, a - 1, x % 2;
      var y, z := Low(x, a + b), Low(h, a' + b);
      LowLow(h, a', b);
      LowStep(x, a + b);
      LowStep(x, a);
      LowShrOf(y, c, z, a, a');
    }
  }

  /** The lowest `a + b` bits of `x` shifted right by `a` are the lowest `b` bits of `x >> a`. */
  lemma {:induction false} ShrOfLow(x: nat, a: nat, b: nat)
    ensures Shr(Low(x, a + b), a) == Low(Shr(x, a), b)
    decreases a
  {
    if a > 0 {
      var h, a', c := x / 2, a - 1, x % 2;
      var y, z := Low(x, a + b), Low(h, a' + b);
      ShrOfLow(h, a', b);
      LowStep(x, a + b);
      LowShrOf(y, c, z, a, a');
      ShrStep(x, a);
    }
  }

  /**
    The 1-bits among the lowest `a + b` bits of `x` are those among its
    lowest `a` bits plus those among the lowest `b` bits of `x >> a`.
  */
  lemma BitCountLowSplit(x: nat, a: nat, b: nat)
    ensures BitCount(Low(x, a + b)) == BitCount(Low(x, a)) + BitCount(Low(Shr(x, a), b))
  {
    BitCountSplit(Low(x, a + b), a);
    LowLow(x, a, b);
    ShrOfLow(x, a, b);
  }

  lemma ShrStep(x: nat, a: nat)
    requires a > 0
    ensures Shr(x, a) == Shr(x / 2, a - 1)
  {}

  /** The 1-bits of `x` are those among its lowest `k` bits plus those of `x >> k`. */
  lemma {:induction false} BitCountSplit(x: nat, k: nat)
    ensures BitCount(x) == BitCount(Low(x, k)) + BitCount(Shr(x, k))
    decreases k
  {
    if k > 0 {
      BitCountSplit(x / 2, k - 1);
      LowBitCountStep(x, k);
      ShrStep(x, k);
    }
  }

  /** A number below `2^k` has at most `k` 1-bits. */
  lemma {:induction false} BitCountAtMost(x: nat, k: nat)
    requires x < Pow2(k)
    ensures BitCount(x) <= k
    decreases k
  {
    if k > 0 && x > 0 {
      BitCountAtMost(x / 2, k - 1);
    }
  }

  /** Below `2^k` a number is its own lowest `k` bits and has at most `k` 1-bits. */
  lemma {:induction false} BelowPow2(x: nat, k: nat)
    ensures x < Pow2(k) ==> Low(x, k) == x && BitCount(x) <= k
  {
    if x < Pow2(k) {
      LowSmall(x, k);
      BitCountAtMost(x, k);
    }
  }

  /** From `2^k` up, some 1-bit of `x` lies outside its lowest `k` bits. */
  lemma {:induction false} LowCountBelow(x: nat, k: nat)
    requires x >= Pow2(k)
    ensures BitCount(Low(x, k)) < BitCount(x)
  {
    BitCountSplit(x, k);
    ShrLow(x, k);
    QuotientPositive(x, Pow2(k), Shr(x, k), Low(x, k));
  }

  lemma QuotientPositive(x: nat, p: nat, q: nat, r: nat)
    requires x == p * q + r && r < p <= x
    ensures q > 0
  {}

  // ---------------------------------------------------------------------
  // Python's `&`
  // ---------------------------------------------------------------------

  lemma {:induction false} AndSelf(x: nat)
    ensures And(x, x) == x
    decreases x
  {
    if x > 0 {
      AndSelf(x / 2);
    }
  }

  /** `x & 1` is the low bit of `x`. */
  lemma AndOne(x: nat)
    ensures And(x, 1) == x % 2
  {}

  /** `x & (2^k - 1)` keeps the lowest `k` bits of `x`. */
  lemma {:induction false} AndLowMask(x: nat, k: nat)
    ensures And(x, Pow2(k) - 1) == Low(x, k)
    decreases k
  {
    if k > 0 && x > 0 {
      var p := Pow2(k - 1);
      AndLowMask(x / 2, k - 1);
      assert (2 * p - 1) / 2 == p - 1 && (2 * p - 1) % 2 == 1;
    } else if k > 0 {
      LowSmall(0, k);
    }
  }

  /** Position of the lowest 1-bit of a positive number. */
  function TrailingZeros(x: nat): (t: nat)
    requires x > 0
    ensures Low(x, t + 1) == Pow2(t)
  {
    if x % 2 == 1 then 0 else TrailingZeros(x / 2) + 1
  }

  /** `x & (x - 1)` in terms of `x / 2`, for odd and for even positive `x`. */
  lemma AndPredStep(x: nat)
    requires x > 0
    ensures x % 2 == 1 ==> And(x, x - 1) == 2 * (x / 2)
    ensures x % 2 == 0 ==> x / 2 > 0 && And(x, x - 1) == 2 * And(x / 2, x / 2 - 1)
  {
    var h := x / 2;
    if x % 2 == 1 {
      assert (x - 1) / 2 == h && (x - 1) % 2 == 0;
      AndSelf(h);
    } else {
      assert (x - 1) / 2 == h - 1 && (x - 1) % 2 == 1;
    }
  }

  /** Kernighan's step on a positive number: `x & (x - 1)` is `x` minus its lowest 1-bit. */
  lemma {:induction false} ClearLowestValue(x: nat)
    requires x > 0
    ensures And(x, x - 1) + Pow2(TrailingZeros(x)) == x
    decreases x
  {
    AndPredStep(x);
    if x % 2 == 0 {
      ClearLowestValue(x / 2);
    }
  }

  /** Kernighan's step on a positive number removes exactly one 1-bit. */
  lemma {:induction false} ClearLowestCount(x: nat)
    requires x > 0
    ensures BitCount(And(x, x - 1)) + 1 == BitCount(x)
    decreases x
  {
    var h, y := x / 2, And(x, x - 1);
    AndPredStep(x);
    if x % 2 == 1 {
      BitCountOf(y, h, 0);
      BitCountOf(x, h, 1);
    } else {
      ClearLowestCount(h);
      BitCountOf(y, And(h, h - 1), 0);
      BitCountOf(x, h, 0);
    }
  }
}
