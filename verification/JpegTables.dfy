/** The constant tables of the encoder, and the proof that their codes serve every baseline coefficient. */
module JpegTables {
  import opened Common
  import opened Huffman
  import opened JpegEntropy

  const STD_DC_LUMINANCE_NRCODES: seq<Byte> := [0] + [0, 1, 5, 1] + [1, 1, 1, 1] + [1, 0, 0, 0] + [0, 0, 0, 0]
  const STD_DC_LUMINANCE_VALUES: seq<Byte> := [0, 1, 2, 3, 4, 5, 6, 7, 8, 9, 10, 11]
  const STD_AC_LUMINANCE_NRCODES: seq<Byte> := [0] + [0, 2, 1, 3] + [3, 2, 4, 3] + [5, 5, 4, 4] + [0, 0, 1, 125]
  const STD_AC_LUMINANCE_VALUES: seq<Byte> :=
    [0x01, 0x02, 0x03, 0x00, 0x04, 0x11, 0x05, 0x12, 0x21, 0x31, 0x41, 0x06, 0x13, 0x51, 0x61, 0x07]
    + [0x22, 0x71, 0x14, 0x32, 0x81, 0x91, 0xa1, 0x08, 0x23, 0x42, 0xb1, 0xc1, 0x15, 0x52, 0xd1, 0xf0]
    + [0x24, 0x33, 0x62, 0x72, 0x82, 0x09, 0x0a, 0x16, 0x17, 0x18, 0x19, 0x1a, 0x25, 0x26, 0x27, 0x28]
    + [0x29, 0x2a, 0x34, 0x35, 0x36, 0x37, 0x38, 0x39, 0x3a, 0x43, 0x44, 0x45, 0x46, 0x47, 0x48, 0x49]
    + [0x4a, 0x53, 0x54, 0x55, 0x56, 0x57, 0x58, 0x59, 0x5a, 0x63, 0x64, 0x65, 0x66, 0x67, 0x68, 0x69]
    + [0x6a, 0x73, 0x74, 0x75, 0x76, 0x77, 0x78, 0x79, 0x7a, 0x83, 0x84, 0x85, 0x86, 0x87, 0x88, 0x89]
    + [0x8a, 0x92, 0x93, 0x94, 0x95, 0x96, 0x97, 0x98, 0x99, 0x9a, 0xa2, 0xa3, 0xa4, 0xa5, 0xa6, 0xa7]
    + [0xa8, 0xa9, 0xaa, 0xb2, 0xb3, 0xb4, 0xb5, 0xb6, 0xb7, 0xb8, 0xb9, 0xba, 0xc2, 0xc3, 0xc4, 0xc5]
    + [0xc6, 0xc7, 0xc8, 0xc9, 0xca, 0xd2, 0xd3, 0xd4, 0xd5, 0xd6, 0xd7, 0xd8, 0xd9, 0xda, 0xe1, 0xe2]
    + [0xe3, 0xe4, 0xe5, 0xe6, 0xe7, 0xe8, 0xe9, 0xea, 0xf1, 0xf2, 0xf3, 0xf4, 0xf5, 0xf6, 0xf7, 0xf8]
    + [0xf9, 0xfa]

  const STD_DC_CHROMINANCE_NRCODES: seq<Byte> := [0] + [0, 3, 1, 1] + [1, 1, 1, 1] + [1, 1, 1, 0] + [0, 0, 0, 0]
  const STD_DC_CHROMINANCE_VALUES: seq<Byte> := [0, 1, 2, 3, 4, 5, 6, 7, 8, 9, 10, 11]
  const STD_AC_CHROMINANCE_NRCODES: seq<Byte> := [0] + [0, 2, 1, 2] + [4, 4, 3, 4] + [7, 5, 4, 4] + [0, 1, 2, 119]
  const STD_AC_CHROMINANCE_VALUES: seq<Byte> :=
    [0x00, 0x01, 0x02, 0x03, 0x11, 0x04, 0x05, 0x21, 0x31, 0x06, 0x12, 0x41, 0x51, 0x07, 0x61, 0x71]
    + [0x13, 0x22, 0x32, 0x81, 0x08, 0x14, 0x42, 0x91, 0xa1, 0xb1, 0xc1, 0x09, 0x23, 0x33, 0x52, 0xf0]
    + [0x15, 0x62, 0x72, 0xd1, 0x0a, 0x16, 0x24, 0x34, 0xe1, 0x25, 0xf1, 0x17, 0x18, 0x19, 0x1a, 0x26]
    + [0x27, 0x28, 0x29, 0x2a, 0x35, 0x36, 0x37, 0x38, 0x39, 0x3a, 0x43, 0x44, 0x45, 0x46, 0x47, 0x48]
    + [0x49, 0x4a, 0x53, 0x54, 0x55, 0x56, 0x57, 0x58, 0x59, 0x5a, 0x63, 0x64, 0x65, 0x66, 0x67, 0x68]
    + [0x69, 0x6a, 0x73, 0x74, 0x75, 0x76, 0x77, 0x78, 0x79, 0x7a, 0x82, 0x83, 0x84, 0x85, 0x86, 0x87]
    + [0x88, 0x89, 0x8a, 0x92, 0x93, 0x94, 0x95, 0x96, 0x97, 0x98, 0x99, 0x9a, 0xa2, 0xa3, 0xa4, 0xa5]
    + [0xa6, 0xa7, 0xa8, 0xa9, 0xaa, 0xb2, 0xb3, 0xb4, 0xb5, 0xb6, 0xb7, 0xb8, 0xb9, 0xba, 0xc2, 0xc3]
    + [0xc4, 0xc5, 0xc6, 0xc7, 0xc8, 0xc9, 0xca, 0xd2, 0xd3, 0xd4, 0xd5, 0xd6, 0xd7, 0xd8, 0xd9, 0xda]
    + [0xe2, 0xe3, 0xe4, 0xe5, 0xe6, 0xe7, 0xe8, 0xe9, 0xea, 0xf2, 0xf3, 0xf4, 0xf5, 0xf6, 0xf7, 0xf8]
    + [0xf9, 0xfa]

  function StandardTable(counts: seq<nat>, values: seq<int>): map<int, BitCode>
    requires |counts| == 17 && |Codes(counts)| <= |values|
  {
    TableOf(Codes(counts), values)
  }

  /** The running code value before the codes of `length`, and how many codes are shorter. */
  function FirstOf(counts: seq<nat>, length: nat): (nat, nat)
    requires |counts| == 17 && 1 <= length <= 17
  {
    if length == 1 then (0, 0) else
    var (first, shorter) := FirstOf(counts, length - 1);
    (2 * (first + counts[length - 1]), shorter + counts[length - 1])
  }

  lemma {:induction false} FirstOfTotals(counts: seq<nat>, length: nat)
    requires |counts| == 17 && 1 <= length <= 17
    ensures var (first, shorter) := FirstOf(counts, length);
            && EndValue(counts, 1, 0) == EndValue(counts, length, first)
            && |Codes(counts)| == shorter + |CodesFrom(counts, length, first)|
  {
    hide EndValue, CodesFrom;
    if length > 1 {
      var (first, shorter) := FirstOf(counts, length - 1);
      FirstOfTotals(counts, length - 1);
      CodesFromUnfolds(counts, length - 1, first);
    }
  }

  lemma Totals(counts: seq<nat>)
    requires |counts| == 17
    ensures EndValue(counts, 1, 0) == FirstOf(counts, 17).0 && |Codes(counts)| == FirstOf(counts, 17).1
  {
    FirstOfTotals(counts, 17);
    hide EndValue, CodesFrom, FirstOf;
    NoneLeft(counts, FirstOf(counts, 17).0);
  }

  lemma FirstOfStep(c: seq<nat>, length: nat)
    requires |c| == 17 && 1 <= length <= 16
    ensures var (first, shorter) := FirstOf(c, length);
            FirstOf(c, length + 1) == (2 * (first + c[length]), shorter + c[length])
  {}

  /** Four lengths at a time. */
  lemma FirstOfFour(c: seq<nat>, length: nat)
    requires |c| == 17 && 1 <= length <= 13
    ensures var (first, shorter) := FirstOf(c, length);
            FirstOf(c, length + 4) == (16 * first + 16 * c[length] + 8 * c[length + 1] + 4 * c[length + 2]
                + 2 * c[length + 3],
                                       shorter + c[length] + c[length + 1] + c[length + 2] + c[length + 3])
  {
    hide FirstOf;
    FirstOfStep(c, length);
    FirstOfStep(c, length + 1);
    FirstOfStep(c, length + 2);
    FirstOfStep(c, length + 3);
  }

  /** A table whose counts satisfy Kraft's inequality is prefix-free and has a code for each listed value. */
  lemma TableServes(counts: seq<nat>, values: seq<int>)
    requires |counts| == 17 && |Codes(counts)| == |values| && EndValue(counts, 1, 0) <= Pow2(17)
    ensures PrefixFree(StandardTable(counts, values))
    ensures forall v :: v in values ==> v in StandardTable(counts, values)
  {
    CanonicalIsPrefixFree(counts, values);
    hide Codes, EndValue, PrefixFree;
    forall v | v in values ensures v in StandardTable(counts, values) {
      var i :| 0 <= i < |values| && values[i] == v;
      TableHas(Codes(counts), values, i);
    }
  }

  lemma Pow2Of17()
    ensures Pow2(17) == 131072
  {
    assert Pow2(8) == 256 && Pow2(12) == 4096;
  }

  lemma LuminanceCounts()
    ensures |Codes(STD_DC_LUMINANCE_NRCODES)| == 12 && EndValue(STD_DC_LUMINANCE_NRCODES, 1, 0) <= Pow2(17)
    ensures |Codes(STD_AC_LUMINANCE_NRCODES)| == 162 && EndValue(STD_AC_LUMINANCE_NRCODES, 1, 0) <= Pow2(17)
  {
    Totals(STD_DC_LUMINANCE_NRCODES);
    Totals(STD_AC_LUMINANCE_NRCODES);
    hide EndValue, Codes;
    KraftLuminanceDc();
    KraftLuminanceAc();
  }

  lemma KraftLuminanceDc()
    ensures FirstOf(STD_DC_LUMINANCE_NRCODES, 17) == (130816, 12) && 130816 <= Pow2(17)
  {
    assert FirstOf(STD_DC_LUMINANCE_NRCODES, 1) == (0, 0) && Pow2(17) == 131072 by { Pow2Of17(); }
    hide FirstOf, Pow2;
    FirstOfFour(STD_DC_LUMINANCE_NRCODES, 1);
    FirstOfFour(STD_DC_LUMINANCE_NRCODES, 5);
    FirstOfFour(STD_DC_LUMINANCE_NRCODES, 9);
    FirstOfFour(STD_DC_LUMINANCE_NRCODES, 13);
  }

  lemma KraftLuminanceAc()
    ensures FirstOf(STD_AC_LUMINANCE_NRCODES, 17) == (131070, 162) && 131070 <= Pow2(17)
  {
    assert FirstOf(STD_AC_LUMINANCE_NRCODES, 1) == (0, 0) && Pow2(17) == 131072 by { Pow2Of17(); }
    hide FirstOf, Pow2;
    FirstOfFour(STD_AC_LUMINANCE_NRCODES, 1);
    FirstOfFour(STD_AC_LUMINANCE_NRCODES, 5);
    FirstOfFour(STD_AC_LUMINANCE_NRCODES, 9);
    FirstOfFour(STD_AC_LUMINANCE_NRCODES, 13);
  }

  lemma ChrominanceCounts()
    ensures |Codes(STD_DC_CHROMINANCE_NRCODES)| == 12 && EndValue(STD_DC_CHROMINANCE_NRCODES, 1, 0) <= Pow2(17)
    ensures |Codes(STD_AC_CHROMINANCE_NRCODES)| == 162 && EndValue(STD_AC_CHROMINANCE_NRCODES, 1, 0) <= Pow2(17)
  {
    Totals(STD_DC_CHROMINANCE_NRCODES);
    Totals(STD_AC_CHROMINANCE_NRCODES);
    hide EndValue, Codes;
    KraftChrominanceDc();
    KraftChrominanceAc();
  }

  lemma KraftChrominanceDc()
    ensures FirstOf(STD_DC_CHROMINANCE_NRCODES, 17) == (131008, 12) && 131008 <= Pow2(17)
  {
    assert FirstOf(STD_DC_CHROMINANCE_NRCODES, 1) == (0, 0) && Pow2(17) == 131072 by { Pow2Of17(); }
    hide FirstOf, Pow2;
    FirstOfFour(STD_DC_CHROMINANCE_NRCODES, 1);
    FirstOfFour(STD_DC_CHROMINANCE_NRCODES, 5);
    FirstOfFour(STD_DC_CHROMINANCE_NRCODES, 9);
    FirstOfFour(STD_DC_CHROMINANCE_NRCODES, 13);
  }

  lemma KraftChrominanceAc()
    ensures FirstOf(STD_AC_CHROMINANCE_NRCODES, 17) == (131070, 162) && 131070 <= Pow2(17)
  {
    assert FirstOf(STD_AC_CHROMINANCE_NRCODES, 1) == (0, 0) && Pow2(17) == 131072 by { Pow2Of17(); }
    hide FirstOf, Pow2;
    FirstOfFour(STD_AC_CHROMINANCE_NRCODES, 1);
    FirstOfFour(STD_AC_CHROMINANCE_NRCODES, 5);
    FirstOfFour(STD_AC_CHROMINANCE_NRCODES, 9);
    FirstOfFour(STD_AC_CHROMINANCE_NRCODES, 13);
  }

  lemma LuminanceHasSymbols(rs: int)
    requires AcSymbol(rs) || rs == 0x00 || rs == 0xf0
    ensures rs in STD_AC_LUMINANCE_VALUES
  {}

  lemma ChrominanceHasSymbols(rs: int)
    requires AcSymbol(rs) || rs == 0x00 || rs == 0xf0
    ensures rs in STD_AC_CHROMINANCE_VALUES
  {}

  ghost function Luma(): Tables {
    LuminanceCounts();
    Tables(StandardTable(STD_DC_LUMINANCE_NRCODES, STD_DC_LUMINANCE_VALUES),
           StandardTable(STD_AC_LUMINANCE_NRCODES, STD_AC_LUMINANCE_VALUES))
  }

  ghost function Chroma(): Tables {
    ChrominanceCounts();
    Tables(StandardTable(STD_DC_CHROMINANCE_NRCODES, STD_DC_CHROMINANCE_VALUES),
           StandardTable(STD_AC_CHROMINANCE_NRCODES, STD_AC_CHROMINANCE_VALUES))
  }

  lemma DcCovers(table: map<int, BitCode>)
    requires forall v :: v in STD_DC_LUMINANCE_VALUES ==> v in table
    ensures forall c :: 0 <= c <= 11 ==> c in table
  {
    forall c | 0 <= c <= 11 ensures c in table {
      assert STD_DC_LUMINANCE_VALUES[c] == c;
    }
  }

  lemma LumaAcCovers(table: map<int, BitCode>)
    requires forall v :: v in STD_AC_LUMINANCE_VALUES ==> v in table
    ensures CoversAc(table)
  {
    forall rs | AcSymbol(rs) || rs == 0x00 || rs == 0xf0 ensures rs in table {
      LuminanceHasSymbols(rs);
    }
  }

  lemma ChromaAcCovers(table: map<int, BitCode>)
    requires forall v :: v in STD_AC_CHROMINANCE_VALUES ==> v in table
    ensures CoversAc(table)
  {
    forall rs | AcSymbol(rs) || rs == 0x00 || rs == 0xf0 ensures rs in table {
      ChrominanceHasSymbols(rs);
    }
  }

  /** The luminance codes are prefix-free and cover every symbol of a baseline block. */
  lemma {:induction false} LumaUsable()
    ensures Luma().Usable()
  {
    LuminanceCounts();
    hide PrefixFree, StandardTable, Codes, EndValue, CoversAc;
    TableServes(STD_DC_LUMINANCE_NRCODES, STD_DC_LUMINANCE_VALUES);
    DcCovers(Luma().dc);
    LumaAcServes();
  }

  lemma LumaAcServes()
    ensures PrefixFree(Luma().ac) && CoversAc(Luma().ac)
  {
    LuminanceCounts();
    hide PrefixFree, StandardTable, Codes, EndValue, CoversAc;
    TableServes(STD_AC_LUMINANCE_NRCODES, STD_AC_LUMINANCE_VALUES);
    LumaAcCovers(Luma().ac);
  }

  /** So are the chrominance codes. */
  lemma {:induction false} ChromaUsable()
    ensures Chroma().Usable()
  {
    ChrominanceCounts();
    hide PrefixFree, StandardTable, Codes, EndValue, CoversAc;
    TableServes(STD_DC_CHROMINANCE_NRCODES, STD_DC_CHROMINANCE_VALUES);
    assert STD_DC_CHROMINANCE_VALUES == STD_DC_LUMINANCE_VALUES;
    DcCovers(Chroma().dc);
    ChromaAcServes();
  }

  lemma ChromaAcServes()
    ensures PrefixFree(Chroma().ac) && CoversAc(Chroma().ac)
  {
    ChrominanceCounts();
    hide PrefixFree, StandardTable, Codes, EndValue, CoversAc;
    TableServes(STD_AC_CHROMINANCE_NRCODES, STD_AC_CHROMINANCE_VALUES);
    ChromaAcCovers(Chroma().ac);
  }

  // ---------- Zigzag order ----------

  const ZIGZAG_ROWS: seq<seq<int>> := [
    [0, 1, 5, 6, 14, 15, 27, 28],
    [2, 4, 7, 13, 16, 26, 29, 42],
    [3, 8, 12, 17, 25, 30, 41, 43],
    [9, 11, 18, 24, 31, 40, 44, 53],
    [10, 19, 23, 32, 39, 45, 52, 54],
    [20, 22, 33, 38, 46, 51, 55, 60],
    [21, 34, 37, 47, 50, 56, 59, 61],
    [35, 36, 48, 49, 57, 58, 62, 63]]

  const NATURAL_ROWS: seq<seq<int>> := [
    [0, 1, 8, 16, 9, 2, 3, 10],
    [17, 24, 32, 25, 18, 11, 4, 5],
    [12, 19, 26, 33, 40, 48, 41, 34],
    [27, 20, 13, 6, 7, 14, 21, 28],
    [35, 42, 49, 56, 57, 50, 43, 36],
    [29, 22, 15, 23, 30, 37, 44, 51],
    [58, 59, 52, 45, 38, 31, 39, 46],
    [53, 60, 61, 54, 47, 55, 62, 63]]

  /** ZIGZAG[j]: the zigzag position of the coefficient at raster position j. */
  function ZigzagOf(j: int): int
    requires 0 <= j < 64
  {
    ZIGZAG_ROWS[j / 8][j % 8]
  }

  /** Figure A.6 of ITU-T T.81: the raster position of the k-th coefficient in zigzag order. */
  function NaturalOf(k: int): int
    requires 0 <= k < 64
  {
    NATURAL_ROWS[k / 8][k % 8]
  }

  /** The encoder's ZIGZAG list is a permutation of the 64 positions. */
  lemma {:induction false} ZigzagIsPermutation(j: int)
    requires 0 <= j < 64
    ensures 0 <= ZigzagOf(j) < 64 && NaturalOf(ZigzagOf(j)) == j
    ensures 0 <= NaturalOf(j) < 64 && ZigzagOf(NaturalOf(j)) == j
  {
    ZigzagRow(j / 8, j % 8);
    NaturalRow(j / 8, j % 8);
  }

  lemma ZigzagRow(row: int, col: int)
    requires 0 <= row < 8 && 0 <= col < 8
    ensures var k := ZIGZAG_ROWS[row][col]; 0 <= k < 64 && NATURAL_ROWS[k / 8][k % 8] == 8 * row + col
  {}

  lemma NaturalRow(row: int, col: int)
    requires 0 <= row < 8 && 0 <= col < 8
    ensures var k := NATURAL_ROWS[row][col]; 0 <= k < 64 && ZIGZAG_ROWS[k / 8][k % 8] == 8 * row + col
  {}

  /** The places on the diagonals before diagonal d of a block. */
  function BeforeDiagonal(d: int): int {
    if d < 8 then d * (d + 1) / 2 else 64 - (15 - d) * (16 - d) / 2
  }

  /** The list runs along the diagonals from corner to corner, up on the even ones and down on the odd ones. */
  lemma {:induction false} ZigzagLaw(row: int, col: int)
    requires 0 <= row < 8 && 0 <= col < 8
    ensures ZigzagOf(8 * row + col) ==
            BeforeDiagonal(row + col) + (if (row + col) % 2 == 0 then col else row) - Max(0, row + col - 7)
  {
    assert OnDiagonal(row, col) by {
      hide OnDiagonal;
      if row < 4 {
        ZigzagUpper(row, col);
      } else {
        ZigzagLower(row, col);
      }
    }
    assert (8 * row + col) / 8 == row && (8 * row + col) % 8 == col;
  }

  predicate OnDiagonal(row: int, col: int)
    requires 0 <= row < 8 && 0 <= col < 8
  {
    ZIGZAG_ROWS[row][col] ==
    BeforeDiagonal(row + col) + (if (row + col) % 2 == 0 then col else row) - Max(0, row + col - 7)
  }

  lemma ZigzagUpper(row: int, col: int)
    requires 0 <= row < 4 && 0 <= col < 8
    ensures OnDiagonal(row, col)
  {}

  lemma ZigzagLower(row: int, col: int)
    requires 4 <= row < 8 && 0 <= col < 8
    ensures OnDiagonal(row, col)
  {}

  /** A block of raster-order coefficients, reordered. */
  function Zigzag(raster: Block): Block {
    ZigzagTotal();
    seq(64, k requires 0 <= k < 64 => raster[NaturalOf(k)])
  }

  lemma ZigzagTotal()
    ensures forall k :: 0 <= k < 64 ==> 0 <= NaturalOf(k) < 64 && 0 <= ZigzagOf(k) < 64
  {
    forall k | 0 <= k < 64 ensures 0 <= NaturalOf(k) < 64 && 0 <= ZigzagOf(k) < 64 {
      ZigzagIsPermutation(k);
    }
  }

  lemma ZigzagAt(raster: Block, k: int)
    requires 0 <= k < 64
    ensures 0 <= NaturalOf(k) < 64 && Zigzag(raster)[k] == raster[NaturalOf(k)]
  {
    ZigzagIsPermutation(k);
  }

  lemma ZigzagFacts()
    ensures forall j :: 0 <= j < 64 ==> 0 <= ZigzagOf(j) < 64 && NaturalOf(ZigzagOf(j)) == j
    ensures forall k :: 0 <= k < 64 ==> 0 <= NaturalOf(k) < 64 && ZigzagOf(NaturalOf(k)) == k
  {
    forall j | 0 <= j < 64
      ensures 0 <= ZigzagOf(j) < 64 && NaturalOf(ZigzagOf(j)) == j && 0 <= NaturalOf(j) < 64
          && ZigzagOf(NaturalOf(j)) == j
    {
      ZigzagIsPermutation(j);
    }
  }
}
