/**
  The four Python `hammingWeight` solutions, modelled on non-negative
  integers of unbounded width, each proved to return the number of 1-bits of
  its input (of its low 32 bits, for the two solutions that look at exactly
  32 bits).
*/
module HammingPy {
  import opened NatBits
  import opened ByteTable

  /** Tests bit 0 thirty-two times, shifting `n` right once per round. */
  method BruteForce(n: nat) returns (r: int)
    ensures r == BitCount(Low(n, 32))
    ensures n < Pow2(32) ==> r == BitCount(n)
    ensures 0 <= r <= 32
  {
    r := 0;
    var m: nat := n;
    var w: nat := 32;
    for k := 0 to 32
      invariant w == 32 - k
      invariant r + BitCount(Low(m, w)) == BitCount(Low(n, 32))
    {
      AndOne(m);
      LowBitCountStep(m, w);
      if And(m, 1) != 0 {
        r := r + 1;
      }
      assert Shr(m, 1) == m / 2;
      m, w := Shr(m, 1), w - 1;
    }
    ShrLow(n, 32);
    BitCountAtMost(Low(n, 32), 32);
    BelowPow2(n, 32);
  }

  /** Clears the lowest set bit with `n & (n - 1)` until `n` is 0. */
  method Kernighan(n: nat) returns (r: int)
    ensures r == BitCount(n)
    ensures r == 0 <==> n == 0
    ensures n < Pow2(32) ==> 0 <= r <= 32
  {
    r := 0;
    var m: nat := n;
    while m != 0
      invariant r + BitCount(m) == BitCount(n)
      decreases m
    {
      ClearLowestCount(m);
      m := And(m, m - 1);
      r := r + 1;
    }
    if n < Pow2(32) {
      BitCountAtMost(n, 32);
    }
  }

  /** The table index `(n >> k) & 0xff` is the byte of `n` at bit `k`, and its entry is that byte's count. */
  lemma ByteAt(n: nat, k: nat)
    ensures And(Shr(n, k), 0xff) == Low(Shr(n, k), 8)
    ensures Low(Shr(n, k), 8) < |ToBitCount|
    ensures ToBitCount[Low(Shr(n, k), 8)] == BitCount(Low(Shr(n, k), 8))
  {
    var x := Shr(n, k);
    assert Pow2(8) == 256;
    AndLowMask(x, 8);
    ShrLow(x, 8);
    TableIsBitCount(Low(x, 8));
  }

  /** Splitting off the byte of `n` at bit `k` from the bits of `n` from `k` up to `k + 8 + w`. */
  lemma SplitByteAt(n: nat, k: nat, w: nat, k': nat, w': nat)
    requires k' == k + 8 && w' == 8 + w
    ensures BitCount(Low(Shr(n, k), w'))
         == BitCount(Low(Shr(n, k), 8)) + BitCount(Low(Shr(n, k'), w))
  {
    BitCountLowSplit(Shr(n, k), 8, w);
    ShrShr(n, k, 8);
  }

  /** The count of the low 32 bits of `n` is the sum of the counts of its four low bytes. */
  lemma BitCountBytes(n: nat)
    ensures BitCount(Low(n, 32))
         == BitCount(Low(Shr(n, 0), 8)) + BitCount(Low(Shr(n, 8), 8))
          + BitCount(Low(Shr(n, 16), 8)) + BitCount(Low(Shr(n, 24), 8))
  {
    assert Shr(n, 0) == n;
    SplitByteAt(n, 0, 24, 8, 32);
    SplitByteAt(n, 8, 16, 16, 24);
    SplitByteAt(n, 16, 8, 24, 16);
  }

  /** Sums the table entries of the four low bytes of `n`. */
  function Table(n: nat): (r: nat)
    ensures r == BitCount(Low(n, 32))
    ensures n < Pow2(32) ==> r == BitCount(n)
    ensures r <= 32
  {
    ShrLow(n, 32);
    BitCountAtMost(Low(n, 32), 32);
    ByteAt(n, 0);
    ByteAt(n, 8);
    ByteAt(n, 16);
    ByteAt(n, 24);
    BitCountBytes(n);
    BelowPow2(n, 32);
    ToBitCount[And(Shr(n, 0), 0xff)] + ToBitCount[And(Shr(n, 8), 0xff)]
    + ToBitCount[And(Shr(n, 16), 0xff)] + ToBitCount[And(Shr(n, 24), 0xff)]
  }

  /** Python's `int.bit_count()`. */
  function Intrinsic(n: nat): (r: nat)
    ensures r == 0 <==> n == 0
    ensures n < Pow2(32) ==> r <= 32
  {
    BelowPow2(n, 32);
    BitCount(n)
  }

  /** All four solutions return the same count on every integer below `2^32`. */
  method Agree(n: nat) returns (b: int, k: int, t: int)
    requires n < Pow2(32)
    ensures b == k == t == Intrinsic(n)
  {
    b := BruteForce(n);
    k := Kernighan(n);
    t := Table(n);
  }

  /**
    From `2^32` up the solutions split in two: brute force and the table see
    only the lowest 32 bits, and miss a 1-bit that Kernighan's loop and
    `int.bit_count()` count.
  */
  method Disagree(n: nat) returns (b: int, k: int, t: int)
    requires n >= Pow2(32)
    ensures b == t < k == Intrinsic(n)
  {
    b := BruteForce(n);
    k := Kernighan(n);
    t := Table(n);
    LowCountBelow(n, 32);
  }
}
