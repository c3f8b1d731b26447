/**
  The 256-entry translation table shared by the C++ and Python table-lookup
  solutions: entry `b` holds the number of 1-bits of the byte value `b`.
*/
module ByteTable {
  import opened NatBits
  import opened Word32

  const Row0: seq<nat> := [0, 1, 1, 2, 1, 2, 2, 3, 1, 2, 2, 3, 2, 3, 3, 4]
  const Row1: seq<nat> := [1, 2, 2, 3, 2, 3, 3, 4, 2, 3, 3, 4, 3, 4, 4, 5]
  const Row2: seq<nat> := [1, 2, 2, 3, 2, 3, 3, 4, 2, 3, 3, 4, 3, 4, 4, 5]
  const Row3: seq<nat> := [2, 3, 3, 4, 3, 4, 4, 5, 3, 4, 4, 5, 4, 5, 5, 6]
  const Row4: seq<nat> := [1, 2, 2, 3, 2, 3, 3, 4, 2, 3, 3, 4, 3, 4, 4, 5]
  const Row5: seq<nat> := [2, 3, 3, 4, 3, 4, 4, 5, 3, 4, 4, 5, 4, 5, 5, 6]
  const Row6: seq<nat> := [2, 3, 3, 4, 3, 4, 4, 5, 3, 4, 4, 5, 4, 5, 5, 6]
  const Row7: seq<nat> := [3, 4, 4, 5, 4, 5, 5, 6, 4, 5, 5, 6, 5, 6, 6, 7]
  const Row8: seq<nat> := [1, 2, 2, 3, 2, 3, 3, 4, 2, 3, 3, 4, 3, 4, 4, 5]
  const Row9: seq<nat> := [2, 3, 3, 4, 3, 4, 4, 5, 3, 4, 4, 5, 4, 5, 5, 6]
  const RowA: seq<nat> := [2, 3, 3, 4, 3, 4, 4, 5, 3, 4, 4, 5, 4, 5, 5, 6]
  const RowB: seq<nat> := [3, 4, 4, 5, 4, 5, 5, 6, 4, 5, 5, 6, 5, 6, 6, 7]
  const RowC: seq<nat> := [2, 3, 3, 4, 3, 4, 4, 5, 3, 4, 4, 5, 4, 5, 5, 6]
  const RowD: seq<nat> := [3, 4, 4, 5, 4, 5, 5, 6, 4, 5, 5, 6, 5, 6, 6, 7]
  const RowE: seq<nat> := [3, 4, 4, 5, 4, 5, 5, 6, 4, 5, 5, 6, 5, 6, 6, 7]
  const RowF: seq<nat> := [4, 5, 5, 6, 5, 6, 6, 7, 5, 6, 6, 7, 6, 7, 7, 8]

  /** The table, as written in both sources, sixteen entries per row. */
  const ToBitCount: seq<nat> :=
    Row0 + Row1 + Row2 + Row3 + Row4 + Row5 + Row6 + Row7 +
    Row8 + Row9 + RowA + RowB + RowC + RowD + RowE + RowF

  /** Row `h` of the table. */
  function TableRow(h: nat): (r: seq<nat>)
    requires h < 16
    ensures |r| == 16
  {
    match h
      case 0 => Row0
      case 1 => Row1
      case 2 => Row2
      case 3 => Row3
      case 4 => Row4
      case 5 => Row5
      case 6 => Row6
      case 7 => Row7
      case 8 => Row8
      case 9 => Row9
      case 10 => RowA
      case 11 => RowB
      case 12 => RowC
      case 13 => RowD
      case 14 => RowE
      case 15 => RowF
  }

  /** Entry `16 * h + l` of the table is entry `l` of row `h`. */
  lemma TableEntry(h: nat, l: nat)
    requires h < 16 && l < 16
    ensures |ToBitCount| == 256
    ensures ToBitCount[16 * h + l] == TableRow(h)[l]
  {
    match h
      case 0 => {}
      case 1 => {}
      case 2 => {}
      case 3 => {}
      case 4 => {}
      case 5 => {}
      case 6 => {}
      case 7 => {}
      case 8 => {}
      case 9 => {}
      case 10 => {}
      case 11 => {}
      case 12 => {}
      case 13 => {}
      case 14 => {}
      case 15 => {}
  }

  /** The first row holds the counts of the sixteen 4-bit values. */
  lemma NibbleRow(l: nat)
    requires l < 16
    ensures Row0[l] == BitCount(l)
  {
    assert BitCount(0) == 0;
    assert BitCount(1) == 1;
    assert BitCount(2) == 1;
    assert BitCount(3) == 2;
    assert BitCount(4) == 1;
    assert BitCount(5) == 2;
    assert BitCount(6) == 2;
    assert BitCount(7) == 3;
    assert BitCount(8) == 1;
    assert BitCount(9) == 2;
    assert BitCount(10) == 2;
    assert BitCount(11) == 3;
    assert BitCount(12) == 2;
    assert BitCount(13) == 3;
    assert BitCount(14) == 3;
    assert BitCount(15) == 4;
  }

  /** Row `h` of the table is row 0 with the count of `h` added to every entry. */
  lemma RowShift(h: nat, l: nat)
    requires h < 16 && l < 16
    ensures TableRow(h)[l] == Row0[h] + Row0[l]
  {
    match l
      case 0 => {}
      case 1 => {}
      case 2 => {}
      case 3 => {}
      case 4 => {}
      case 5 => {}
      case 6 => {}
      case 7 => {}
      case 8 => {}
      case 9 => {}
      case 10 => {}
      case 11 => {}
      case 12 => {}
      case 13 => {}
      case 14 => {}
      case 15 => {}
  }

  /** Every entry of the table is the number of 1-bits of its index. */
  lemma TableIsBitCount(b: nat)
    requires b < 256
    ensures b < |ToBitCount| && ToBitCount[b] == BitCount(b)
  {
    var h, l := b / 16, b % 16;
    TableEntry(h, l);
    RowShift(h, l);
    NibbleRow(h);
    NibbleRow(l);
    NibbleSplit(b, h, l);
  }

  // ---------------------------------------------------------------------
  // Bytes seen as `bv32` words
  // ---------------------------------------------------------------------

  lemma ByteHalf(b: bv8, w: bv32)
    requires w == b as bv32
    ensures (b >> 1) as int == b as int / 2
    ensures w >> 1 == (b >> 1) as bv32
    ensures LowBit(w) == b as int % 2
  {}

  /** A byte has as many 1-bits as a number as it has as a 32-bit word. */
  lemma {:induction false} ByteBitCount(b: bv8)
    ensures BitCount(b as int) == PopCount(b as bv32)
    decreases b as int
  {
    if b != 0 {
      var w := b as bv32;
      ByteHalf(b, w);
      ByteBitCount(b >> 1);
      PopCountStep(w);
    }
  }

  /** The table entry of a byte is the number of 1-bits of the byte as a 32-bit word. */
  lemma TableIsPopCount(b: bv8)
    ensures b as int < |ToBitCount| && ToBitCount[b as int] == PopCount(b as bv32)
  {
    TableIsBitCount(b as int);
    ByteBitCount(b);
  }
}
