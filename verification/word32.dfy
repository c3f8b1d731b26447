/**
  The population count (Hamming weight) of a 32-bit unsigned integer, stated
  over `bv32` the way the C++ solutions see their `uint32_t` argument.

  `PopCount` is the specification every C++ solution is proved against; it
  also stands for the intrinsic `popcount`, whose implementation is foreign.
  The lemmas are the bit facts the three hand-written algorithms rely on:
  the shift-by-one identity (brute force), clearing the lowest set bit
  (Kernighan) and splitting a word into bytes (table lookup).

  Bit-vector facts are kept in small helper lemmas of their own: the solver
  decides each of them quickly by itself but not when many are combined.
  For the same reason several lemmas take the intermediate words (`n >> 1`,
  `n & LowMask(k)`, ...) as parameters fixed by their `requires`: the
  counting lemmas then only match named words and never see the bit-vector
  expressions that produced them.
*/
module Word32 {

  /** 1 when the least significant bit of `n` is set, 0 otherwise. */
  function LowBit(n: bv32): nat {
    if n & 1 == 1 then 1 else 0
  }

  /** The number of 1-bits of `n`: the low bit plus the 1-bits of the rest. */
  function PopCount(n: bv32): (r: nat)
    ensures r == 0 <==> n == 0
    decreases n
  {
    if n == 0 then 0
    else
      HalfIsSmaller(n);
      LowBit(n) + PopCount(n >> 1)
  }

  /** Shifting a non-zero word right loses a set bit only if it was the low one. */
  lemma HalfIsSmaller(n: bv32)
    requires n != 0
    ensures n >> 1 < n
    ensures n & 1 != 1 ==> n >> 1 != 0
  {}

  /**
    The number of significant bits of `n`: the position of its highest set
    bit plus one, 0 for the zero word. It is the measure for induction over
    `n >> 1`.
  */
  function BitLength(n: bv32): nat
    decreases n
  {
    if n == 0 then 0
    else
      HalfIsSmaller(n);
      1 + BitLength(n >> 1)
  }

  /** The recursive bit identity, for every word including 0. */
  lemma PopCountStep(n: bv32)
    ensures PopCount(n) == LowBit(n) + PopCount(n >> 1)
  {}

  // ---------------------------------------------------------------------
  // Bounds
  // ---------------------------------------------------------------------

  /** Dropping the low bit of a word whose bits at `k` and above are clear. */
  lemma ShiftedHighClear(n: bv32, k: bv6)
    requires 0 < k <= 32 && n >> k == 0
    ensures (n >> 1) >> (k - 1) == 0
    ensures (k - 1) as int == k as int - 1
  {}

  /** A word with no set bit at position `k` or above has at most `k` 1-bits. */
  lemma {:induction false} PopCountAtMost(n: bv32, k: bv6)
    requires k <= 32 && n >> k == 0
    ensures PopCount(n) <= k as int
    decreases BitLength(n)
  {
    if n != 0 {
      HalfIsSmaller(n);
      ShiftedHighClear(n, k);
      PopCountAtMost(n >> 1, k - 1);
    }
  }

  /**
    Every 32-bit word has between 0 and 32 set bits: 0 only for the zero
    word and 32 only for the word with every bit set.
  */
  lemma PopCountBounds(n: bv32)
    ensures 0 <= PopCount(n) <= 32
    ensures PopCount(n) == 0 <==> n == 0
    ensures PopCount(n) == 32 <==> n == 0xFFFF_FFFF
  {
    PopCountAtMost(n, 32);
    PopCountComplement(n);
    ComplementIsZero(n);
  }

  lemma ComplementIsZero(n: bv32)
    ensures !n == 0 <==> n == 0xFFFF_FFFF
  {}

  // ---------------------------------------------------------------------
  // The complement
  // ---------------------------------------------------------------------

  lemma ComplementZero(n: bv32)
    requires n >> (0 as bv6) == 0
    ensures n == 0 && !n & LowMask(0) == 0
  {}

  // Bit facts for one step of the complement count, over named words.

  lemma ComplementLowBit(n: bv32, k: bv6, m: bv32)
    requires 0 < k <= 32 && m == !n & LowMask(k)
    ensures LowBit(m) + LowBit(n) == 1
  {}

  lemma ComplementShift(n: bv32, k: bv6, m: bv32, h: bv32, j: bv6, g: bv32)
    requires 0 < k <= 32 && m == !n & LowMask(k)
    requires h == n >> 1 && j == k - 1 && g == !h & LowMask(j)
    ensures m >> 1 == g
  {}

  /** Counting step: the low bits of `n` and `m` add to one, and the rest by induction. */
  lemma ComplementCountStep(n: bv32, m: bv32, h: bv32, g: bv32, k: nat)
    requires LowBit(m) + LowBit(n) == 1 && h == n >> 1 && g == m >> 1
    requires PopCount(h) + PopCount(g) + 1 == k
    ensures PopCount(n) + PopCount(m) == k
  {
    PopCountStep(n);
    PopCountStep(m);
  }

  /**
    Within the lowest `k` bits, a word and its complement have `k` 1-bits
    between them.
  */
  lemma {:induction false} PopCountComplementWithin(n: bv32, k: bv6)
    requires k <= 32 && n >> k == 0
    ensures PopCount(n) + PopCount(!n & LowMask(k)) == k as int
    decreases k as int
  {
    if k == 0 {
      ComplementZero(n);
    } else {
      var h, j := n >> 1, k - 1;
      var m, g := !n & LowMask(k), !h & LowMask(j);
      ComplementLowBit(n, k, m);
      ComplementShift(n, k, m, h, j, g);
      ShiftedHighClear(n, k);
      PopCountComplementWithin(h, j);
      ComplementCountStep(n, m, h, g, k as int);
    }
  }

  lemma LowMaskAll(n: bv32)
    ensures LowMask(32) == 0xFFFF_FFFF && n >> (32 as bv6) == 0
  {}

  /** Each of the 32 bits is set in exactly one of `n` and `!n`. */
  lemma PopCountComplement(n: bv32)
    ensures PopCount(n) + PopCount(!n) == 32
  {
    LowMaskAll(n);
    PopCountComplementWithin(n, 32);
  }

  // ---------------------------------------------------------------------
  // The lowest set bit and Kernighan's step `n & (n - 1)`
  // ---------------------------------------------------------------------

  /** `b` is a single bit that is set in `n`, and no lower bit of `n` is set. */
  predicate IsLowestSetBit(n: bv32, b: bv32) {
    && b != 0
    && b & (b - 1) == 0
    && n & b == b
    && n & (b - 1) == 0
  }

  lemma OddLowestSetBit(n: bv32)
    requires n & 1 == 1
    ensures IsLowestSetBit(n, 1)
  {}

  lemma EvenLowestSetBit(n: bv32, c: bv32)
    requires n & 1 == 0
    requires IsLowestSetBit(n >> 1, c)
    ensures IsLowestSetBit(n, c << 1)
  {}

  /** The lowest set bit of a non-zero word, as a one-bit mask. */
  function LowestSetBit(n: bv32): (b: bv32)
    requires n != 0
    ensures IsLowestSetBit(n, b)
    decreases n
  {
    if n & 1 == 1 then
      OddLowestSetBit(n);
      1
    else
      HalfIsSmaller(n);
      var c := LowestSetBit(n >> 1);
      EvenLowestSetBit(n, c);
      c << 1
  }

  /**
    `n & (n - 1)` is `n` with exactly its lowest set bit cleared: the bits
    that differ are the single bit `LowestSetBit(n)`, which `n` has and the
    result has not.
  */
  lemma ClearLowestSetBit(n: bv32)
    requires n != 0
    ensures n & (n - 1) == n ^ LowestSetBit(n)
  {
    ClearIsToggle(n, LowestSetBit(n));
  }

  lemma ClearIsToggle(n: bv32, b: bv32)
    requires IsLowestSetBit(n, b)
    ensures n & (n - 1) == n ^ b
  {}

  /** Bit facts for one of Kernighan's steps on a word whose low bit is set. */
  lemma ClearOdd(n: bv32)
    requires LowBit(n) == 1
    ensures LowBit(n & (n - 1)) == 0
    ensures (n & (n - 1)) >> 1 == n >> 1
  {}

  /** Bit facts for one of Kernighan's steps on a non-zero word whose low bit is clear. */
  lemma ClearEven(n: bv32)
    requires n != 0 && LowBit(n) == 0
    ensures n >> 1 != 0
    ensures LowBit(n & (n - 1)) == 0
    ensures (n & (n - 1)) >> 1 == (n >> 1) & ((n >> 1) - 1)
  {}

  lemma BitLengthShrinks(n: bv32)
    requires n != 0
    ensures BitLength(n >> 1) < BitLength(n)
  {}

  /** Counting step: `m` agrees with `n` above bit 0 and has bit 0 clear where `n` has it set. */
  lemma CountOneFewerOdd(n: bv32, m: bv32)
    requires LowBit(n) == 1 && LowBit(m) == 0 && m >> 1 == n >> 1
    ensures PopCount(m) + 1 == PopCount(n)
  {
    PopCountStep(n);
    PopCountStep(m);
  }

  /** Counting step: both low bits clear, and one fewer 1-bit above bit 0. */
  lemma CountOneFewerEven(n: bv32, m: bv32)
    requires LowBit(n) == 0 && LowBit(m) == 0
    requires PopCount(m >> 1) + 1 == PopCount(n >> 1)
    ensures PopCount(m) + 1 == PopCount(n)
  {
    PopCountStep(n);
    PopCountStep(m);
  }

  /** Each of Kernighan's steps removes exactly one 1-bit. */
  lemma {:induction false} PopCountClearLowest(n: bv32)
    requires n != 0
    ensures PopCount(n & (n - 1)) + 1 == PopCount(n)
    decreases BitLength(n)
  {
    if LowBit(n) == 1 {
      ClearOdd(n);
      CountOneFewerOdd(n, n & (n - 1));
    } else {
      ClearEven(n);
      BitLengthShrinks(n);
      PopCountClearLowest(n >> 1);
      CountOneFewerEven(n, n & (n - 1));
    }
  }

  // ---------------------------------------------------------------------
  // Splitting a word: low `k` bits and the rest
  // ---------------------------------------------------------------------

  /** The mask of the lowest `k` bits. */
  function LowMask(k: bv6): bv32
    requires k <= 32
  {
    (1 << k) - 1
  }

  lemma LowMaskZero(n: bv32)
    ensures n & LowMask(0) == 0
    ensures n >> (0 as bv6) == n
  {}

  /** Counting step: `lo` keeps the low bit of `n`, and `n`'s upper bits `h` split into `lo`'s upper bits `g` and `hi`. */
  lemma CountSplitStep(n: bv32, lo: bv32, hi: bv32, h: bv32, g: bv32)
    requires LowBit(lo) == LowBit(n) && h == n >> 1 && g == lo >> 1
    requires PopCount(h) == PopCount(g) + PopCount(hi)
    ensures PopCount(n) == PopCount(lo) + PopCount(hi)
  {
    PopCountStep(n);
    PopCountStep(lo);
  }

  lemma PopCountSplitZero(n: bv32)
    ensures PopCount(n) == PopCount(n & LowMask(0)) + PopCount(n >> (0 as bv6))
  {
    LowMaskZero(n);
  }

  // Bit facts for one step of the split, stated over named intermediate
  // words so that the counting lemma below only has to match them.

  lemma SuccLowBit(n: bv32, k: bv6, lo: bv32)
    requires 0 < k <= 32 && lo == n & LowMask(k)
    ensures LowBit(lo) == LowBit(n)
  {}

  lemma SuccLow(n: bv32, k: bv6, h: bv32, j: bv6, lo: bv32, g: bv32)
    requires 0 < k <= 32 && h == n >> 1 && j == k - 1
    requires lo == n & LowMask(k) && g == h & LowMask(j)
    ensures lo >> 1 == g
  {}

  lemma SuccHigh(n: bv32, k: bv6, h: bv32, j: bv6, hi: bv32)
    requires 0 < k <= 32 && h == n >> 1 && j == k - 1 && hi == n >> k
    ensures h >> j == hi
  {}

  /** The split at `k` from the split of `n >> 1` at `k - 1`. */
  lemma PopCountSplitSucc(n: bv32, k: bv6, h: bv32, j: bv6)
    requires 0 < k <= 32 && h == n >> 1 && j == k - 1
    requires PopCount(h) == PopCount(h & LowMask(j)) + PopCount(h >> j)
    ensures PopCount(n) == PopCount(n & LowMask(k)) + PopCount(n >> k)
  {
    var lo, hi, g := n & LowMask(k), n >> k, h & LowMask(j);
    SuccLowBit(n, k, lo);
    SuccLow(n, k, h, j, lo, g);
    SuccHigh(n, k, h, j, hi);
    CountSplitStep(n, lo, hi, h, g);
  }

  /** The 1-bits of `n` are those among its low `k` bits plus those above. */
  lemma {:induction false} PopCountSplit(n: bv32, k: bv6)
    requires k <= 32
    ensures PopCount(n) == PopCount(n & LowMask(k)) + PopCount(n >> k)
    decreases k as int
  {
    if k == 0 {
      PopCountSplitZero(n);
    } else {
      var h, j := n >> 1, k - 1;
      PopCountSplit(h, j);
      PopCountSplitSucc(n, k, h, j);
    }
  }

  lemma LowMaskByte()
    ensures LowMask(8) == 0xff
  {}

  /** The 1-bits of `n` are those of its low byte plus those of `n >> 8`. */
  lemma PopCountLowByte(n: bv32, lo: bv32, hi: bv32)
    requires lo == n & 0xff && hi == n >> 8
    ensures PopCount(n) == PopCount(lo) + PopCount(hi)
  {
    LowMaskByte();
    PopCountSplit(n, 8);
  }

  lemma ByteShifts(n: bv32, r1: bv32, r2: bv32)
    requires r1 == n >> 8 && r2 == r1 >> 8
    ensures r2 == n >> 16
    ensures r2 >> 8 == (n >> 24) & 0xff
  {}

  /** The 1-bits of a word are the 1-bits of its four bytes added together. */
  lemma PopCountBytes(n: bv32)
    ensures PopCount(n) ==
      PopCount(n & 0xff) + PopCount((n >> 8) & 0xff)
      + PopCount((n >> 16) & 0xff) + PopCount((n >> 24) & 0xff)
  {
    var r1 := n >> 8;
    var r2 := r1 >> 8;
    PopCountLowByte(n, n & 0xff, r1);
    PopCountLowByte(r1, r1 & 0xff, r2);
    PopCountLowByte(r2, r2 & 0xff, r2 >> 8);
    ByteShifts(n, r1, r2);
  }
}
