/**
  The four C++ `hammingWeight` solutions on a `uint32_t` argument, modelled
  on `bv32` words, each proved to return the population count of its input.
*/
module HammingCpp {
  import opened Word32
  import opened ByteTable
  import opened NatBits

  // ---------------------------------------------------------------------
  // Loop-step facts, stated over named words
  // ---------------------------------------------------------------------

  /** Dropping the low bit keeps the bits at `i - 1` and above of `m >> 1` clear. */
  lemma ShiftOutBit(m: bv32, i: bv32, m': bv32)
    requires 0 < i <= 32 && m >> i == 0 && m' == m >> 1
    ensures m' >> (i - 1) == 0
  {}

  /** Dropping the low byte keeps the bytes at `i - 1` and above of `m >> 8` clear. */
  lemma ShiftOutByte(m: bv32, i: bv32, m': bv32)
    requires 0 < i <= 4 && m >> (8 * i) == 0 && m' == m >> 8
    ensures m' >> (8 * (i - 1)) == 0
  {}

  /** The brute-force count step: the low bit tested by `1 == (n & 1)`. */
  lemma CountLowBit(m: bv32, m': bv32)
    requires m' == m >> 1
    ensures PopCount(m) == (if 1 == (m & 1) then 1 else 0) + PopCount(m')
  {
    PopCountStep(m);
  }

  /** The table step: the entry for the low byte plus the count of the rest. */
  lemma CountLowByte(m: bv32, b: bv8, m': bv32)
    requires b == (m & 0xff) as bv8 && m' == m >> 8
    ensures b as int < |ToBitCount| && PopCount(m) == ToBitCount[b as int] + PopCount(m')
  {
    LowByteWord(m, b, m & 0xff);
    TableIsPopCount(b);
    PopCountLowByte(m, m & 0xff, m');
  }

  lemma LowByteWord(m: bv32, b: bv8, lo: bv32)
    requires b == (m & 0xff) as bv8 && lo == m & 0xff
    ensures b as bv32 == lo
  {}

  // ---------------------------------------------------------------------
  // The solutions
  // ---------------------------------------------------------------------

  /** Tests each of the 32 bits in turn, shifting `n` right once per bit. */
  method BruteForce(n: bv32) returns (r: int)
    ensures r == PopCount(n)
    ensures 0 <= r <= 32
    ensures r == 0 <==> n == 0
  {
    PopCountBounds(n);
    r := 0;
    var m := n;
    var i: bv32 := 32;
    while 0 < i
      invariant i <= 32 && m >> i == 0
      invariant r + PopCount(m) == PopCount(n)
      decreases i
    {
      var m' := m >> 1;
      CountLowBit(m, m');
      ShiftOutBit(m, i, m');
      if 1 == (m & 1) {
        r := r + 1;
      }
      m := m';
      i := i - 1;
    }
  }

  /** Clears the lowest set bit with `n & (n - 1)` until no bit is left. */
  method Kernighan(n: bv32) returns (r: int)
    ensures r == PopCount(n)
    ensures 0 <= r <= 32
    ensures r == 0 <==> n == 0
  {
    PopCountBounds(n);
    r := 0;
    var m := n;
    while m != 0
      invariant r + PopCount(m) == PopCount(n)
      decreases PopCount(m)
    {
      PopCountClearLowest(m);
      m := m & (m - 1);
      r := r + 1;
    }
  }

  /**
    The table solution as written: its accumulator is declared without an
    initial value, so the result is off by whatever `initial` it started at.
  */
  method TableAsWritten(n: bv32, initial: int) returns (r: int)
    ensures r == initial + PopCount(n)
    ensures r == PopCount(n) <==> initial == 0
  {
    r := initial;
    var m := n;
    var i: bv32 := 4;
    while i != 0
      invariant i <= 4 && m >> (8 * i) == 0
      invariant r + PopCount(m) == initial + PopCount(n)
      decreases i
    {
      var b, m' := (m & 0xff) as bv8, m >> 8;
      CountLowByte(m, b, m');
      ShiftOutByte(m, i, m');
      r := r + ToBitCount[b as int];
      m := m';
      i := i - 1;
    }
  }

  /** A stale accumulator of 1 turns the count 3 of the first test input into 4. */
  method StaleAccumulator() returns (r: int)
    ensures r == 4 && r != PopCount(11)
  {
    r := TableAsWritten(11, 1);
    ByteBitCount(11);
    assert BitCount(11) == 3;
  }

  /** The table solution with its accumulator starting at 0: sums the table entries of the four bytes. */
  method Table(n: bv32) returns (r: int)
    ensures r == PopCount(n)
    ensures 0 <= r <= 32
    ensures r == 0 <==> n == 0
  {
    PopCountBounds(n);
    r := TableAsWritten(n, 0);
  }

  /** The intrinsic `popcount`. */
  function Intrinsic(n: bv32): (r: int)
    ensures 0 <= r <= 32
    ensures r == 0 <==> n == 0
  {
    PopCountBounds(n);
    PopCount(n)
  }

  /** All four solutions return the same count on every word. */
  method Agree(n: bv32) returns (b: int, k: int, t: int)
    ensures b == k == t == Intrinsic(n)
  {
    b := BruteForce(n);
    k := Kernighan(n);
    t := Table(n);
  }
}
