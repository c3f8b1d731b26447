/**
  The example inputs both test suites run through every solution: 11 has
  three 1-bits, 128 has one, and 4294967293 (all bits but bit 1) has 31.
  The word with every bit set, 0xFFFF_FFFF, has 32.

  The lemmas about 4294967293 receive it, and its shifts by 8, 16 and 24
  bits, as parameters fixed by their `requires` rather than as literals in
  the body: on a literal argument the solver evaluates `Low`, `Shr` and
  `BitCount` by unfolding them bit by bit, which costs far more than the
  proof itself.
*/
module TestCases {
  import opened Word32
  import opened NatBits
  import opened ByteTable
  import HammingCpp
  import HammingPy

  /** The expected counts, on 32-bit words. */
  lemma WordVectors()
    ensures PopCount(11) == 3
    ensures PopCount(128) == 1
    ensures PopCount(4294967293) == 31
  {
    ByteVector(11, 11, 3);
    ByteVector(128, 128, 1);
    ByteCounts();
    ByteVector(0xfd, 0xfd, 7);
    ByteVector(0xff, 0xff, 8);
    PopCountBytes(4294967293);
  }

  /** The word with every bit set has the largest count. */
  lemma AllOnes()
    ensures PopCount(0xFFFF_FFFF) == 32
  {
    PopCountBounds(0xFFFF_FFFF);
  }

  /** The count of a byte, from the count of the same number. */
  lemma ByteVector(b: bv8, x: nat, c: nat)
    requires x == b as int && BitCount(x) == c
    ensures PopCount(b as bv32) == c
  {
    ByteBitCount(b);
  }

  /** The expected counts, on non-negative integers, all of them below `2^32`. */
  lemma NatVectors()
    ensures BitCount(11) == 3
    ensures BitCount(128) == 1
    ensures 4294967293 < Pow2(32) && BitCount(4294967293) == 31
  {
    NatAllButBitOne(4294967293, 16777215, 65535, 255);
    ByteCounts();
  }

  /** The count of 4294967293 is the count of its low byte 0xfd plus three times that of 0xff. */
  lemma NatAllButBitOne(n: nat, n8: nat, n16: nat, n24: nat)
    requires n == 4294967293 && n8 == 16777215 && n16 == 65535 && n24 == 255
    ensures n < Pow2(32) && BitCount(n) == BitCount(0xfd) + 3 * BitCount(0xff)
  {
    Pow2Bytes();
    LowSmall(n, 32);
    HammingPy.BitCountBytes(n);
    NatShifts(n, n8, n16, n24);
    NatBytes(n, n8, n16, n24);
  }

  /** The counts of the bytes 0xfd and 0xff, nibble by nibble. */
  lemma ByteCounts()
    ensures BitCount(0xfd) == 7 && BitCount(0xff) == 8
  {
    NibbleRow(13);
    NibbleRow(15);
    NibbleSplit(0xfd, 15, 13);
    NibbleSplit(0xff, 15, 15);
  }

  /** The shift by 8 and the low byte of `x = 256 * q + r`. */
  lemma ByteOf(x: nat, q: nat, r: nat)
    requires r < 256 && x == 256 * q + r
    ensures Shr(x, 8) == q && Low(x, 8) == r
  {
    ShrLowByte(x);
  }

  /** The shifts of 4294967293 by 8, 16 and 24 bits. */
  lemma NatShifts(n: nat, n8: nat, n16: nat, n24: nat)
    requires n == 4294967293 && n8 == 16777215 && n16 == 65535 && n24 == 255
    ensures Shr(n, 0) == n && Shr(n, 8) == n8 && Shr(n, 16) == n16 && Shr(n, 24) == n24
  {
    ByteOf(n, n8, 0xfd);
    ByteOf(n8, n16, 0xff);
    ByteOf(n16, n24, 0xff);
    ShrShr(n, 8, 8);
    ShrShr(n, 16, 8);
  }

  /** The four low bytes of 4294967293: every bit set except bit 1. */
  lemma NatBytes(n: nat, n8: nat, n16: nat, n24: nat)
    requires n == 4294967293 && n8 == 16777215 && n16 == 65535 && n24 == 255
    ensures Low(n, 8) == 0xfd && Low(n8, 8) == 0xff
    ensures Low(n16, 8) == 0xff && Low(n24, 8) == 0xff
  {
    ByteOf(n, n8, 0xfd);
    ByteOf(n8, n16, 0xff);
    ByteOf(n16, n24, 0xff);
    ByteOf(n24, 0, 0xff);
  }

  /** Each C++ solution on each test input, in the order of the test cases. */
  method CppTestCases() returns (results: seq<int>)
    ensures results == [3, 1, 31, 3, 1, 31, 3, 1, 31, 3, 1, 31]
  {
    WordVectors();
    var b1 := HammingCpp.BruteForce(11);
    var b2 := HammingCpp.BruteForce(128);
    var b3 := HammingCpp.BruteForce(4294967293);
    var k1 := HammingCpp.Kernighan(11);
    var k2 := HammingCpp.Kernighan(128);
    var k3 := HammingCpp.Kernighan(4294967293);
    var t1 := HammingCpp.Table(11);
    var t2 := HammingCpp.Table(128);
    var t3 := HammingCpp.Table(4294967293);
    var i1, i2, i3 := HammingCpp.Intrinsic(11), HammingCpp.Intrinsic(128), HammingCpp.Intrinsic(4294967293);
    results := [b1, b2, b3, k1, k2, k3, t1, t2, t3, i1, i2, i3];
  }

  /** Each Python solution on each test input, in the order of the test cases. */
  method PyTestCases() returns (results: seq<int>)
    ensures results == [3, 3, 3, 3, 1, 1, 1, 1, 31, 31, 31, 31]
  {
    NatVectors();
    var b1 := HammingPy.BruteForce(11);
    var k1 := HammingPy.Kernighan(11);
    var b2 := HammingPy.BruteForce(128);
    var k2 := HammingPy.Kernighan(128);
    var b3 := HammingPy.BruteForce(4294967293);
    var k3 := HammingPy.Kernighan(4294967293);
    results := [b1, k1, HammingPy.Table(11), HammingPy.Intrinsic(11),
                b2, k2, HammingPy.Table(128), HammingPy.Intrinsic(128),
                b3, k3, HammingPy.Table(4294967293), HammingPy.Intrinsic(4294967293)];
  }
}
