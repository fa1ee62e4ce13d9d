/** The encoder object: a bit writer with byte stuffing, and the block and scan loops that drive it. */
module JpegEncoding {
  import opened Common
  import opened Huffman
  import opened JpegEntropy
  import opened JpegTables
  import opened JpegHeader
  import opened JpegSampling

  // ---------- Bytes and stuffing ----------

  /** The bits of a byte string, each byte most significant bit first. */
  function BitsOf(bytes: seq<Byte>): (bits: Bits)
    ensures |bits| == 8 * |bytes|
  {
    if bytes == [] then [] else BitsOf(bytes[..|bytes| - 1]) + ToBits(bytes[|bytes| - 1], 8)
  }

  /** Section F.1.2.3: a zero byte follows every 0xFF of the entropy-coded data. */
  function Stuff(bytes: seq<Byte>): seq<Byte> {
    if bytes == [] then [] else
    var n := |bytes| - 1;
    Stuff(bytes[..n]) + (if bytes[n] == 0xff then [0xff, 0] else [bytes[n]])
  }

  /** Entropy-coded bytes up to the first marker, without the stuffed zeros. */
  function Unstuff(stream: seq<Byte>): seq<Byte> {
    if stream == [] then []
    else if stream[0] != 0xff then [stream[0]] + Unstuff(stream[1..])
    else if |stream| > 1 && stream[1] == 0 then [0xff] + Unstuff(stream[2..])
    else []
  }

  lemma {:induction false} UnstuffUndoesStuff(bytes: seq<Byte>, tail: seq<Byte>)
    ensures Unstuff(Stuff(bytes) + tail) == bytes + Unstuff(tail)
  {
    if bytes == [] {
      assert Stuff(bytes) + tail == tail;
    } else {
      var n := |bytes| - 1;
      var piece := if bytes[n] == 0xff then [0xff, 0] else [bytes[n]];
      assert Stuff(bytes) + tail == Stuff(bytes[..n]) + (piece + tail);
      UnstuffUndoesStuff(bytes[..n], piece + tail);
      assert (piece + tail)[|piece|..] == tail;
      assert bytes == bytes[..n] + [bytes[n]];
    }
  }

  /** Every 0xFF is followed by a zero, so the data holds no marker. */
  predicate MarkerFree(stream: seq<Byte>) {
    forall i :: 0 <= i < |stream| && stream[i] == 0xff ==> i + 1 < |stream| && stream[i + 1] == 0
  }

  lemma {:induction false} StuffedIsMarkerFree(bytes: seq<Byte>)
    ensures MarkerFree(Stuff(bytes))
  {
    if bytes != [] {
      StuffedIsMarkerFree(bytes[..|bytes| - 1]);
    }
  }

  // ---------- The byte being filled ----------

  function Clear(n: nat): Bits {
    seq(n, i => false)
  }

  lemma ValueOfLast(bits: Bits, bit: bool)
    ensures ValueOf(bits + [bit]) == 2 * ValueOf(bits) + if bit then 1 else 0
  {
    assert (bits + [bit])[..|bits|] == bits;
  }

  /** Setting the bit below the written ones adds its weight to the byte. */
  lemma {:induction false} FillBit(written: Bits, bit: bool, n: nat)
    ensures ValueOf(written + [bit] + Clear(n)) == ValueOf(written + Clear(n + 1)) + if bit then Pow2(n) else 0
  {
    hide ValueOf;
    if n == 0 {
      assert written + [bit] + Clear(0) == written + [bit] && written + Clear(1) == written + [false];
      ValueOfLast(written, bit);
      ValueOfLast(written, false);
    } else {
      FillBit(written, bit, n - 1);
      assert written + [bit] + Clear(n) == (written + [bit] + Clear(n - 1)) + [false];
      assert written + Clear(n + 1) == (written + Clear(n)) + [false];
      ValueOfLast(written + [bit] + Clear(n - 1), false);
      ValueOfLast(written + Clear(n), false);
    }
  }

  /** Bit `posval` of the value is the next one writeBits appends. */
  lemma NextBit(value: nat, length: nat, posval: nat)
    requires posval < length
    ensures var i := length - 1 - posval;
            ToBits(value, length)[..i + 1] == ToBits(value, length)[..i] + [Shr(value, posval) % 2 == 1]
  {
    var i := length - 1 - posval;
    ToBitsPrefix(value, length, i + 1);
    ToBitsPrefix(value, length, i);
    var v := Shr(value, posval);
    assert ToBits(v, i + 1) == ToBits(v / 2, i) + [v % 2 == 1];
  }

  lemma {:induction false} AllOnes(n: nat)
    ensures ToBits(Pow2(n) - 1, n) == seq(n, i => true)
  {
    if n > 0 {
      AllOnes(n - 1);
      assert (Pow2(n) - 1) / 2 == Pow2(n - 1) - 1;
    }
  }

  lemma BitsOfAppend(bytes: seq<Byte>, b: Byte)
    ensures BitsOf(bytes + [b]) == BitsOf(bytes) + ToBits(b, 8)
  {
    assert (bytes + [b])[..|bytes|] == bytes;
  }

  /** Outputting one more byte, as writeBits does it. */
  lemma StuffAppend(header: seq<Byte>, bytes: seq<Byte>, b: Byte)
    ensures header + Stuff(bytes + [b])
         == if b == 0xff then header + Stuff(bytes) + [0xff] + [0] else header + Stuff(bytes) + [b]
  {
    assert (bytes + [b])[..|bytes|] == bytes;
    assert [0xff] + [0] == [0xff, 0];
  }

  /** The completed bytes hold all but the last 7 - bytepos bits, which are the top bits of bytenew. */
  ghost predicate Packed(whole: seq<Byte>, written: Bits, bytenew: int, bytepos: int) {
    && 0 <= bytepos <= 7
    && |written| == 8 * |whole| + 7 - bytepos
    && written[..8 * |whole|] == BitsOf(whole)
    && bytenew == ValueOf(written[8 * |whole|..] + Clear(bytepos + 1))
  }

  lemma {:induction false} AllClear(n: nat)
    ensures ValueOf(Clear(n)) == 0
  {
    if n > 0 {
      AllClear(n - 1);
      assert Clear(n)[..n - 1] == Clear(n - 1);
    }
  }

  lemma PackBit(whole: seq<Byte>, written: Bits, bytenew: int, bytepos: int, bit: bool)
    requires Packed(whole, written, bytenew, bytepos)
    ensures 0 <= bytepos <= 7
    ensures var full := bytenew + if bit then Pow2(bytepos) else 0;
            if bytepos > 0 then Packed(whole, written + [bit], full, bytepos - 1)
            else 0 <= full < 256 && Packed(whole + [full], written + [bit], 0, 7)
  {
    hide BitsOf, ValueOf, Pow2, ToBits;
    var start := 8 * |whole|;
    var partial := written[start..];
    var full := bytenew + if bit then Pow2(bytepos) else 0;
    FillBit(partial, bit, bytepos);
    var next := written + [bit];
    assert next[start..] == partial + [bit] && next[..start] == BitsOf(whole);
    if bytepos == 0 {
      assert partial + [bit] + Clear(0) == partial + [bit];
      FullByte(whole, next[start..]);
      assert next == next[..start] + next[start..];
    }
  }

  lemma Pow2Of8()
    ensures Pow2(8) == 256
  {}

  lemma FullByte(whole: seq<Byte>, last: Bits)
    requires |last| == 8
    ensures ValueOf(last) < 256 && Packed(whole + [ValueOf(last)], BitsOf(whole) + last, 0, 7)
  {
    Pow2Of8();
    hide *;
    ToBitsValueOf(last);
    BitsOfAppend(whole, ValueOf(last));
    EmptyByte(whole + [ValueOf(last)], BitsOf(whole) + last);
  }

  lemma EmptyByte(whole: seq<Byte>, next: Bits)
    requires next == BitsOf(whole)
    ensures Packed(whole, next, 0, 7)
  {
    AllClear(8);
    hide BitsOf, ValueOf;
    assert next[..|next|] == next && next[|next|..] + Clear(8) == Clear(8);
  }

  // ---------- What the coefficient loops write ----------

  /** A block whose coefficients from k on are zero ends with one EOB, or with nothing after position 63. */
  lemma {:induction false} TrailingZeros(b: Block, k: nat, r: nat, ac: map<int, BitCode>)
    requires 1 <= k <= 64 && AcInRange(b) && CoversAc(ac)
    requires forall i :: k <= i < 64 ==> b[i] == 0
    ensures AcBits(b, k, r, ac) == if k < 64 || r > 0 then CodeBits(ac, 0x00) else []
    decreases 64 - k
  {
    if k < 64 {
      TrailingZeros(b, k + 1, r + 1, ac);
    }
  }

  lemma AcAtCoefficient(b: Block, k: nat, r: nat, ac: map<int, BitCode>)
    requires 1 <= k < 64 && AcInRange(b) && CoversAc(ac) && b[k] != 0
    ensures (r % 16) * 16 + Category(b[k]) in ac && -1023 <= b[k] <= 1023
    ensures AcBits(b, k, r, ac)
         == Repeat(CodeBits(ac, 0xf0), r / 16)
            + (CodeBits(ac, (r % 16) * 16 + Category(b[k])) + MagnitudeBits(b[k]) + AcBits(b, k + 1, 0, ac))
  {
    AcSymbolOf(b[k], r);
  }

  lemma {:induction false} RepeatEnds(bits: Bits, n: nat)
    requires n > 0
    ensures Repeat(bits, n) == Repeat(bits, n - 1) + bits
  {
    if n == 1 {
      assert bits + [] == [] + bits;
    } else {
      RepeatEnds(bits, n - 1);
      Regroup(bits, Repeat(bits, n - 2), bits);
    }
  }

  lemma RegroupRun(w: Bits, runs: Bits, code: Bits, mag: Bits, rest: Bits)
    ensures w + (runs + (code + mag + rest)) == (((w + runs) + code) + mag) + rest
  {}

  /** The category and the magnitude code of every value from -32767 to 32767, at index 32767 + value. */
  ghost predicate CategoriesFilled(category: array<int>, bitcode: array<BitCode>)
    reads category, bitcode
  {
    category.Length == 65535 && bitcode.Length == 65535 && FilledBetween(category, bitcode, 0, 65535)
  }

  ghost predicate FilledBetween(category: array<int>, bitcode: array<BitCode>, lo: int, hi: int)
    requires category.Length == 65535 && bitcode.Length == 65535 && 0 <= lo <= hi <= 65535
    reads category, bitcode
  {
    && (forall i :: lo <= i < hi ==> category[i] == Category(i - 32767))
    && (forall i :: lo <= i < hi && i != 32767 ==>
          bitcode[i].length == Category(i - 32767) && bitcode[i].code == MagnitudeCode(i - 32767))
  }

  // ---------- Reading the scan back ----------

  const ZERO := Preds(0, 0, 0)

  /** The bits that fill the last byte: at least one, at most eight, all ones. */
  predicate IsPadding(pad: Bits) {
    1 <= |pad| <= 8 && forall i :: 0 <= i < |pad| ==> pad[i]
  }

  function ZigzagMcu(m: Mcu): Mcu {
    Mcu(Zigzag(m.y), Zigzag(m.u), Zigzag(m.v))
  }

  function ZigzagScan(mcus: seq<Mcu>): seq<Mcu> {
    seq(|mcus|, i requires 0 <= i < |mcus| => ZigzagMcu(mcus[i]))
  }

  ghost predicate McuFits(m: Mcu, p: Preds) {
    InRange(m.y, p.y) && InRange(m.u, p.u) && InRange(m.v, p.v)
  }

  /** Raster order from zigzag order: the coefficient at raster position j was coded at position ZIGZAG[j]. */
  function Raster(b: Block): Block {
    ZigzagTotal();
    seq(64, j requires 0 <= j < 64 => b[ZigzagOf(j)])
  }

  function RasterScan(scan: seq<Mcu>): seq<Mcu> {
    seq(|scan|, i requires 0 <= i < |scan| => Mcu(Raster(scan[i].y), Raster(scan[i].u), Raster(scan[i].v)))
  }

  lemma RasterUndoesZigzag(q: Block)
    ensures Raster(Zigzag(q)) == q
  {
    ZigzagFacts();
    forall j | 0 <= j < 64 ensures Raster(Zigzag(q))[j] == q[j] {
      ZigzagAt(q, ZigzagOf(j));
    }
  }

  lemma RasterScanUndoesZigzag(mcus: seq<Mcu>)
    ensures RasterScan(ZigzagScan(mcus)) == mcus
  {
    forall i | 0 <= i < |mcus| ensures RasterScan(ZigzagScan(mcus))[i] == mcus[i] {
      hide Raster, Zigzag;
      RasterUndoesZigzag(mcus[i].y);
      RasterUndoesZigzag(mcus[i].u);
      RasterUndoesZigzag(mcus[i].v);
    }
  }

  /** Un-stuffing the bytes up to the first marker and decoding |mcus| units gives the blocks, and only padding is
      left. */
  ghost predicate DecodesTo(stream: seq<Byte>, mcus: seq<Mcu>) {
    LumaUsable();
    ChromaUsable();
    var decoded := DecodeScan(|mcus|, Preds(0, 0, 0), Luma(), Chroma(), BitsOf(Unstuff(stream)));
    decoded.Some? && RasterScan(decoded.value.0) == mcus && IsPadding(decoded.value.1)
  }

  /** The bits of the blocks, padded. */
  ghost predicate IsScan(bits: Bits, mcus: seq<Mcu>) {
    && ScanInRange(ZigzagScan(mcus), ZERO) && Luma().Usable() && Chroma().Usable()
    && exists pad :: IsPadding(pad) && bits == ScanBits(ZigzagScan(mcus), ZERO, Luma(), Chroma()) + pad
  }

  lemma ScanStreamDecodes(whole: seq<Byte>, mcus: seq<Mcu>)
    requires IsScan(BitsOf(whole), mcus)
    ensures DecodesTo(Stuff(whole) + [0xff, 0xd9], mcus)
  {
    var pad :| IsPadding(pad) && BitsOf(whole) == ScanBits(ZigzagScan(mcus), ZERO, Luma(), Chroma()) + pad;
    UnstuffUndoesStuff(whole, [0xff, 0xd9]);
    assert Unstuff([0xff, 0xd9]) == [] && whole + [] == whole;
    hide Luma, Chroma, Tables.Usable, ScanBits, DecodeScan, BitsOf, Stuff, Unstuff, ScanInRange, Zigzag, RasterScan,
        ZigzagScan;
    assert |ZigzagScan(mcus)| == |mcus| by { ZigzagScanLength(mcus); }
    ScanDecodes(ZigzagScan(mcus), ZERO, Luma(), Chroma(), pad);
    RasterScanUndoesZigzag(mcus);
  }

  /** The header, entropy-coded data without markers that decodes to the blocks, and the end-of-image marker. */
  ghost predicate IsStream(out: seq<Byte>, header: seq<Byte>, mcus: seq<Mcu>) {
    && |out| >= |header| + 2 && out[..|header|] == header
    && MarkerFree(out[|header|..|out| - 2]) && out[|out| - 2..] == [0xff, 0xd9]
    && DecodesTo(out[|header|..], mcus)
  }

  lemma {:induction false} StreamDecodes(header: seq<Byte>, whole: seq<Byte>, mcus: seq<Mcu>)
    requires IsScan(BitsOf(whole), mcus)
    ensures IsStream(header + Stuff(whole) + [0xff] + [0xd9], header, mcus)
  {
    hide Stuff, DecodesTo, IsScan, MarkerFree, BitsOf;
    ScanStreamDecodes(whole, mcus);
    StuffedIsMarkerFree(whole);
    StreamParts(header, Stuff(whole), header + Stuff(whole) + [0xff] + [0xd9]);
  }

  lemma StreamParts(header: seq<Byte>, data: seq<Byte>, out: seq<Byte>)
    requires out == header + data + [0xff] + [0xd9]
    ensures |out| >= |header| + 2 && out[..|header|] == header && out[|header|..] == data + [0xff, 0xd9]
    ensures out[|header|..|out| - 2] == data && out[|out| - 2..] == [0xff, 0xd9]
  {}

  lemma ZigzagScanLength(mcus: seq<Mcu>)
    ensures |ZigzagScan(mcus)| == |mcus|
  {}

  lemma Regroup4(w: Bits, a: Bits, b: Bits, c: Bits)
    ensures ((w + a) + b) + c == w + (a + (b + c))
  {}

  /** The bits w written for the first i units, followed by those of the rest, are the whole scan. */
  ghost predicate ScanLeft(w: Bits, mcus: seq<Mcu>, i: nat, p: Preds)
    requires i <= |mcus|
  {
    var scan := ZigzagScan(mcus);
    && Luma().Usable() && Chroma().Usable() && ScanInRange(scan, ZERO) && ScanInRange(scan[i..], p)
    && w + ScanBits(scan[i..], p, Luma(), Chroma()) == ScanBits(scan, ZERO, Luma(), Chroma())
  }

  lemma ScanStarts(mcus: seq<Mcu>)
    requires ScanInRange(ZigzagScan(mcus), ZERO)
    ensures ScanLeft([], mcus, 0, ZERO)
  {
    LumaUsable();
    ChromaUsable();
    hide ScanBits, Luma, Chroma, Tables.Usable, ScanInRange;
    var scan := ZigzagScan(mcus);
    assert scan[0..] == scan;
    assert [] + ScanBits(scan, ZERO, Luma(), Chroma()) == ScanBits(scan, ZERO, Luma(), Chroma());
  }

  lemma ScanAdvances(w: Bits, mcus: seq<Mcu>, i: nat, p: Preds)
    requires i < |mcus| && ScanLeft(w, mcus, i, p)
    ensures Luma().Usable() && Chroma().Usable() && McuFits(ZigzagMcu(mcus[i]), p)
    ensures ScanLeft(w + McuBits(ZigzagMcu(mcus[i]), p, Luma(), Chroma()), mcus, i + 1, DcOf(ZigzagMcu(mcus[i])))
  {
    hide Luma, Chroma, Tables.Usable;
    var scan := ZigzagScan(mcus);
    ScanTailInRange(scan[i..], p);
    assert scan[i..][1..] == scan[i + 1..] && scan[i..][0] == scan[i];
    var m, rest := McuBits(scan[i], p, Luma(), Chroma()), ScanBits(scan[i + 1..], DcOf(scan[i]), Luma(), Chroma());
    assert ScanBits(scan[i..], p, Luma(), Chroma()) == m + rest;
    hide ScanBits, McuBits, ScanInRange, InRange;
    Regroup(w, m, rest);
  }

  lemma ScanEnds(w: Bits, mcus: seq<Mcu>, p: Preds, pad: Bits)
    requires ScanLeft(w, mcus, |mcus|, p) && IsPadding(pad)
    ensures IsScan(w + pad, mcus)
  {
    hide Luma, Chroma, Tables.Usable, IsPadding;
    var scan := ZigzagScan(mcus);
    assert scan[|mcus|..] == [];
    assert w + [] == w;
  }

  lemma StartOfScan(header: seq<Byte>)
    ensures Packed([], [], 0, 7) && header == header + Stuff([])
  {
    EmptyByte([], []);
  }

  lemma PackedPosition(whole: seq<Byte>, written: Bits, bytenew: int, bytepos: int)
    requires Packed(whole, written, bytenew, bytepos)
    ensures 0 <= bytepos <= 7 && |written| == 8 * |whole| + 7 - bytepos
  {}

  lemma FullBytes(whole: seq<Byte>, written: Bits, bytenew: int, bytepos: int)
    requires Packed(whole, written, bytenew, bytepos) && bytepos == 7
    ensures written == BitsOf(whole)
  {
    assert written[..|written|] == written;
  }

  // ---------- Reading the whole image back ----------

  lemma RegroupHeader(z: seq<Byte>, a: seq<Byte>, b: seq<Byte>, c: seq<Byte>, d: seq<Byte>, e: seq<Byte>, f: seq<Byte>)
    ensures z + a + b + c + d + e + f == z + (a + (b + (c + (d + (e + f)))))
  {}

  datatype Picture = Picture(width: nat, height: nat, yTable: seq<Byte>, uvTable: seq<Byte>, mcus: seq<Mcu>)

  /** The Huffman tables a component of the scan selects. */
  function TablesFor(huffman: map<Byte, map<int, BitCode>>, selected: Byte): Option<Tables> {
    var dc, ac: int := selected / 16, 16 + selected % 16;
    if dc in huffman && ac in huffman then Some(Tables(huffman[dc], huffman[ac])) else None
  }

  /** Three components without subsampling, the second and third with the same tables. */
  predicate Supported(scan: Scan) {
    && scan.setup.frame.Some?
    && var c, s := scan.setup.frame.value.components, scan.selectors;
    && |c| == 3 && |s| == 3 && (forall i :: 0 <= i < 3 ==> c[i].id == s[i].id && c[i].sampling == 0x11)
    && s[1].tables == s[2].tables && c[1].quant == c[2].quant
    && c[0].quant in scan.setup.quant && c[1].quant in scan.setup.quant
  }

  /** A baseline decoder after the header: as many units as the size asks for, then padding. */
  ghost function ReadScanData(setup: Setup, s: seq<Selector>, data: seq<Byte>): Option<Picture>
    requires Supported(Scan(setup, s, data))
  {
    var frame := setup.frame.value;
    var luma, chroma := TablesFor(setup.huffman, s[0].tables), TablesFor(setup.huffman, s[1].tables);
    if luma.None? || chroma.None? || !luma.value.Usable() || !chroma.value.Usable() then None else
    var decoded := DecodeScan(BlockCount(frame.width, frame.height), Preds(0, 0, 0), luma.value, chroma.value,
        BitsOf(Unstuff(data)));
    if decoded.None? || !IsPadding(decoded.value.1) then None else
    Some(Picture(frame.width, frame.height, setup.quant[frame.components[0].quant],
        setup.quant[frame.components[1].quant],
                 RasterScan(decoded.value.0)))
  }

  ghost function ReadJpeg(bytes: seq<Byte>): Option<Picture> {
    var scan := ReadHeader(bytes);
    if scan.None? || !Supported(scan.value) then None
    else ReadScanData(scan.value.setup, scan.value.selectors, scan.value.data)
  }

  lemma StandardSelected()
    ensures TablesFor(StandardHuffman(), 0) == Some(Luma()) && TablesFor(StandardHuffman(), 0x11) == Some(Chroma())
  {
    hide Luma, Chroma;
  }

  lemma DescribedSupported(width: nat, height: nat, yTable: seq<Byte>, uvTable: seq<Byte>, data: seq<Byte>)
    ensures Supported(Scan(Described(width, height, yTable, uvTable), SELECTORS, data))
  {
    hide StandardHuffman;
  }

  lemma DescribedParts(width: nat, height: nat, yTable: seq<Byte>, uvTable: seq<Byte>)
    ensures var d := Described(width, height, yTable, uvTable);
            && d.huffman == StandardHuffman() && d.frame == Some(Frame(width % 65536, height % 65536, COMPONENTS))
            && d.frame.value.components[0].quant == 0 && d.frame.value.components[1].quant == 1
            && 0 in d.quant && 1 in d.quant && d.quant[0] == yTable && d.quant[1] == uvTable
    ensures |SELECTORS| == 3 && SELECTORS[0].tables == 0 && SELECTORS[1].tables == 0x11
  {
    hide StandardHuffman;
  }

  lemma DescribedSize(width: nat, height: nat, yTable: seq<Byte>, uvTable: seq<Byte>)
    requires width < 65536 && height < 65536
    ensures var d := Described(width, height, yTable, uvTable);
            && d.huffman == StandardHuffman() && d.frame == Some(Frame(width, height, COMPONENTS))
            && d.frame.value.components[0].quant == 0 && d.frame.value.components[1].quant == 1
            && 0 in d.quant && 1 in d.quant && d.quant[0] == yTable && d.quant[1] == uvTable
    ensures |SELECTORS| == 3 && SELECTORS[0].tables == 0 && SELECTORS[1].tables == 0x11
  {
    hide StandardHuffman;
  }

  lemma ScanDataReads(width: nat, height: nat, yTable: seq<Byte>, uvTable: seq<Byte>, data: seq<Byte>, mcus: seq<Mcu>)
    requires width < 65536 && height < 65536 && |mcus| == BlockCount(width, height) && DecodesTo(data, mcus)
    requires Supported(Scan(Described(width, height, yTable, uvTable), SELECTORS, data))
    ensures ReadScanData(Described(width, height, yTable, uvTable), SELECTORS, data) ==
        Some(Picture(width, height, yTable, uvTable, mcus))
  {
    StandardSelected();
    LumaUsable();
    ChromaUsable();
    DescribedSize(width, height, yTable, uvTable);
    hide Described, Supported, StandardHuffman, TablesFor, Luma, Chroma, Tables.Usable, DecodeScan, BitsOf, Unstuff,
        RasterScan, IsPadding, BlockCount;
  }

  lemma StreamReads(width: nat, height: nat, yTable: seq<Byte>, uvTable: seq<Byte>, out: seq<Byte>, mcus: seq<Mcu>)
    requires width < 65536 && height < 65536 && |yTable| == 64 && |uvTable| == 64 && |mcus| == BlockCount(width, height)
    requires IsStream(out, Header(width, height, yTable, uvTable), mcus)
    ensures ReadJpeg(out) == Some(Picture(width, height, yTable, uvTable, mcus))
  {
    hide Header, ReadHeader, DecodesTo, BlockCount, MarkerFree, ReadScanData, Supported, Described;
    var head := Header(width, height, yTable, uvTable);
    var data := out[|head|..];
    assert out == head + data;
    HeaderReads(width, height, yTable, uvTable, data);
    DescribedSupported(width, height, yTable, uvTable, data);
    ScanDataReads(width, height, yTable, uvTable, data, mcus);
  }

  /** A side of more than 16 bits never reads back. */
  lemma {:induction false} WideIsCut(width: nat, height: nat, yTable: seq<Byte>, uvTable: seq<Byte>, out: seq<Byte>,
      mcus: seq<Mcu>)
    requires |yTable| == 64 && |uvTable| == 64 && IsStream(out, Header(width, height, yTable, uvTable), mcus)
    requires width >= 65536 || height >= 65536
    ensures ReadJpeg(out).Some? ==> ReadJpeg(out).value.width != width || ReadJpeg(out).value.height != height
  {
    hide Header, ReadHeader, DecodesTo, MarkerFree, Supported, Described, TablesFor, Tables.Usable, DecodeScan,
        BitsOf, Unstuff, RasterScan, IsPadding, BlockCount;
    var head := Header(width, height, yTable, uvTable);
    assert out == head + out[|head|..];
    HeaderReads(width, height, yTable, uvTable, out[|head|..]);
    DescribedParts(width, height, yTable, uvTable);
  }

  class JpegEncoder {
    const category: array<int>
    const bitcode: array<BitCode>
    const DU: array<int>
    const YTable: seq<Byte>   // quantisation steps, in zigzag order
    const UVTable: seq<Byte>
    const YDC_HT: map<int, BitCode>
    const UVDC_HT: map<int, BitCode>
    const YAC_HT: map<int, BitCode>
    const UVAC_HT: map<int, BitCode>
    var byteout: seq<Byte>
    var bytenew: int
    var bytepos: int
    ghost var header: seq<Byte>   // bytes written before the entropy-coded data
    ghost var whole: seq<Byte>    // completed bytes, before stuffing
    ghost var written: Bits       // every bit written so far

    ghost predicate Valid()
      reads this
    {
      Packed(whole, written, bytenew, bytepos) && byteout == header + Stuff(whole)
    }

    ghost predicate ArraysReady()
      reads category, bitcode
    {
      CategoriesFilled(category, bitcode) && DU.Length == 64 && DU != category
    }

    ghost predicate Ready()
      reads category, bitcode
    {
      ArraysReady() && |YTable| == 64 && |UVTable| == 64 && Tables(YDC_HT, YAC_HT) == Luma()
          && Tables(UVDC_HT, UVAC_HT) == Chroma()
    }

    static method StandardTables() returns (ydc: map<int, BitCode>, yac: map<int, BitCode>, uvdc: map<int, BitCode>,
        uvac: map<int, BitCode>)
      ensures Tables(ydc, yac) == Luma() && Tables(uvdc, uvac) == Chroma()
    {
      LuminanceCounts();
      ChrominanceCounts();
      Lengths();
      hide Codes, TableOf;
      ydc := ComputeHuffmanTbl(STD_DC_LUMINANCE_NRCODES, STD_DC_LUMINANCE_VALUES);
      uvdc := ComputeHuffmanTbl(STD_DC_CHROMINANCE_NRCODES, STD_DC_CHROMINANCE_VALUES);
      yac := ComputeHuffmanTbl(STD_AC_LUMINANCE_NRCODES, STD_AC_LUMINANCE_VALUES);
      uvac := ComputeHuffmanTbl(STD_AC_CHROMINANCE_NRCODES, STD_AC_CHROMINANCE_VALUES);
    }

    constructor (yTable: seq<Byte>, uvTable: seq<Byte>)
      requires |yTable| == 64 && |uvTable| == 64
      ensures Valid() && Ready() && fresh(DU) && YTable == yTable && UVTable == uvTable && header == [] && written == []
    {
      hide Luma, Chroma, CategoriesFilled, Packed;
      var ydc, yac, uvdc, uvac := StandardTables();
      YDC_HT, YAC_HT, UVDC_HT, UVAC_HT := ydc, yac, uvdc, uvac;
      YTable, UVTable := yTable, uvTable;
      category, bitcode, DU := new int[65535](_ => 0), new BitCode[65535](_ => BitCode(0, 0)), new int[64](_ => 0);
      byteout, bytenew, bytepos, header, whole, written := [], 0, 7, [], [], [];
      new;
      EmptyByte([], []);
      InitCategoryNumber(category, bitcode);
    }

    /** writeBits: most significant bit first; a full byte is output, and stuffed if it is 0xFF. */
    method WriteBits(bs: BitCode)
      requires Valid()
      modifies `byteout, `bytenew, `bytepos, `whole, `written
      ensures Valid() && written == old(written) + ToBits(bs.code, bs.length)
    {
      var posval := bs.length - 1;
      ghost var bits := ToBits(bs.code, bs.length);
      assert old(written) + bits[..0] == old(written);
      while posval >= 0
        invariant -1 <= posval < bs.length
        invariant Valid() && written == old(written) + bits[..bs.length - 1 - posval]
      {
        NextBit(bs.code, bs.length, posval);
        WriteBit(Shr(bs.code, posval) % 2 == 1);
        assert written == old(written) + bits[..bs.length - posval];
        posval := posval - 1;
      }
      assert bits[..bs.length] == bits;
    }

    /** One turn of the loop. Bit `bytepos` of `bytenew` is still clear, so setting it adds its weight. */
    method WriteBit(bit: bool)
      requires Valid()
      modifies `byteout, `bytenew, `bytepos, `whole, `written
      ensures Valid() && written == old(written) + [bit]
    {
      hide Packed, BitsOf, Stuff, Pow2, ToBits, ValueOf;
      PackBit(whole, written, bytenew, bytepos, bit);
      if bit {
        bytenew := bytenew + Pow2(bytepos);
      }
      written := written + [bit];
      bytepos := bytepos - 1;
      if bytepos < 0 {
        StuffAppend(header, whole, bytenew);
        if bytenew == 0xff {
          byteout := byteout + [0xff] + [0];
        } else {
          byteout := byteout + [bytenew];
        }
        whole := whole + [bytenew];
        bytepos := 7;
        bytenew := 0;
      }
    }

    /** The first loop of processDU: the coefficients in zigzag order. */
    method LoadZigzag(q: Block)
      requires ArraysReady()
      modifies DU
      ensures DU[..] == Zigzag(q) && ArraysReady()
    {
      hide CategoriesFilled, Zigzag, ZigzagOf, NaturalOf;
      ZigzagFacts();
      var j := 0;
      while j < 64
        invariant 0 <= j <= 64
        invariant forall i :: 0 <= i < j ==> DU[ZigzagOf(i)] == q[i]
      {
        DU[ZigzagOf(j)] := q[j];
        j := j + 1;
      }
      forall k | 0 <= k < 64 ensures DU[k] == Zigzag(q)[k] {
        assert DU[ZigzagOf(NaturalOf(k))] == q[NaturalOf(k)];
        ZigzagAt(q, k);
      }
    }

    /** The DC part of processDU. */
    method WriteDc(diff: int, htdc: map<int, BitCode>)
      requires Valid() && ArraysReady() && -2047 <= diff <= 2047 && Category(diff) in htdc && 0 in htdc
      modifies `byteout, `bytenew, `bytepos, `whole, `written
      ensures Valid() && written == old(written) + DcBits(diff, htdc)
    {
      hide Packed, Stuff, ToBits;
      if diff == 0 {
        WriteBits(htdc[0]);
        assert MagnitudeBits(0) == [];
        assert CodeBits(htdc, 0) + [] == CodeBits(htdc, 0);
      } else {
        hide Category, MagnitudeCode;
        var pos := 32767 + diff;
        WriteBits(htdc[category[pos]]);
        WriteBits(bitcode[pos]);
        Regroup(old(written), CodeBits(htdc, Category(diff)), MagnitudeBits(diff));
      }
    }

    /** The AC part of processDU, over the block in DU. */
    method WriteAc(ghost b: Block, htac: map<int, BitCode>)
      requires Valid() && ArraysReady() && DU[..] == b && AcInRange(b) && CoversAc(htac)
      modifies `byteout, `bytenew, `bytepos, `whole, `written
      ensures Valid() && written == old(written) + AcBits(b, 1, 0, htac)
    {
      hide AcBits, Category, MagnitudeBits, MagnitudeCode, CodeBits, Packed, Stuff, Repeat;
      var end0pos := 63;
      while end0pos > 0 && DU[end0pos] == 0
        modifies {}
        invariant 0 <= end0pos < 64
        invariant forall k :: end0pos < k < 64 ==> b[k] == 0
      {
        end0pos := end0pos - 1;
      }
      if end0pos == 0 {
        TrailingZeros(b, 1, 0, htac);
        WriteEob(htac);
        return;
      }
      ghost var target := written + AcBits(b, 1, 0, htac);
      var i := 1;
      while i <= end0pos
        invariant 1 <= i <= end0pos + 1 && Valid()
        invariant written + AcBits(b, i, 0, htac) == target
      {
        i := WriteRunAndCoefficient(b, htac, i, end0pos);
      }
      TrailingZeros(b, end0pos + 1, 0, htac);
      if end0pos != 63 {
        WriteEob(htac);
      } else {
        assert written + [] == written;
      }
    }

    method WriteEob(htac: map<int, BitCode>)
      requires Valid() && 0x00 in htac
      modifies `byteout, `bytenew, `bytepos, `whole, `written
      ensures Valid() && written == old(written) + CodeBits(htac, 0x00)
    {
      WriteBits(htac[0x00]);
    }

    /** One turn of the AC loop: the zeros from `start`, and the nonzero coefficient that ends them. */
    method WriteRunAndCoefficient(ghost b: Block, htac: map<int, BitCode>, start: int, end0pos: int) returns (next: int)
      requires Valid() && ArraysReady() && DU[..] == b && AcInRange(b) && CoversAc(htac)
      requires 1 <= start <= end0pos < 64 && DU[end0pos] != 0
      modifies `byteout, `bytenew, `bytepos, `whole, `written
      ensures Valid() && start < next <= end0pos + 1
      ensures written + AcBits(b, next, 0, htac) == old(written) + AcBits(b, start, 0, htac)
    {
      hide AcBits, Category, MagnitudeBits, MagnitudeCode, Packed, Stuff, Repeat, ToBits;
      var i := start;
      while DU[i] == 0 && i <= end0pos
        modifies {}
        invariant start <= i <= end0pos
        invariant AcBits(b, start, 0, htac) == AcBits(b, i, i - start, htac)
      {
        AcSkipsZero(b, i, i - start, htac);
        i := i + 1;
      }
      var nrzeroes := i - start;
      AcAtCoefficient(b, i, nrzeroes, htac);
      ghost var rest := AcBits(b, i + 1, 0, htac);
      RegroupRun(written, Repeat(CodeBits(htac, 0xf0), nrzeroes / 16),
          CodeBits(htac, (nrzeroes % 16) * 16 + Category(b[i])),
                 MagnitudeBits(b[i]), rest);
      WriteRuns(htac, nrzeroes / 16);
      nrzeroes := nrzeroes % 16;
      var pos := 32767 + DU[i];
      WriteBits(htac[nrzeroes * 16 + category[pos]]);
      WriteMagnitude(pos, b[i]);
      next := i + 1;
    }

    method WriteMagnitude(pos: int, ghost v: int)
      requires Valid() && ArraysReady() && v != 0 && -1023 <= v <= 1023 && pos == 32767 + v
      modifies `byteout, `bytenew, `bytepos, `whole, `written
      ensures Valid() && written == old(written) + MagnitudeBits(v)
    {
      WriteBits(bitcode[pos]);
    }

    /** One ZRL code for each sixteen zeros. */
    method WriteRuns(htac: map<int, BitCode>, lng: nat)
      requires Valid() && 0xf0 in htac
      modifies `byteout, `bytenew, `bytepos, `whole, `written
      ensures Valid() && written == old(written) + Repeat(CodeBits(htac, 0xf0), lng)
    {
      ghost var code := CodeBits(htac, 0xf0);
      assert written + Repeat(code, 0) == written;
      for nrmarker := 1 to lng + 1
        invariant Valid() && written == old(written) + Repeat(code, nrmarker - 1)
      {
        WriteBits(htac[0xf0]);
        RepeatEnds(code, nrmarker);
        Regroup(old(written), Repeat(code, nrmarker - 1), code);
      }
    }

    /** processDU after quantisation. */
    method ProcessDU(q: Block, DC: int, htdc: map<int, BitCode>, htac: map<int, BitCode>) returns (dc: int)
      requires Valid() && Ready()
      requires Tables(htdc, htac).Usable() && InRange(Zigzag(q), DC)
      modifies `byteout, `bytenew, `bytepos, `whole, `written, DU
      ensures Valid() && Ready() && dc == Zigzag(q)[0]
      ensures written == old(written) + BlockBits(Zigzag(q), DC, Tables(htdc, htac))
    {
      hide Packed, Stuff, PrefixFree, AcBits, DcBits, CategoriesFilled, Zigzag, Luma, Chroma;
      LoadZigzag(q);
      ghost var b := Zigzag(q);
      DcCategory(b[0] - DC);
      WriteDc(DU[0] - DC, htdc);
      dc := DU[0];
      WriteAc(b, htac);
    }

    /** The three units at one position of the image. */
    method WriteMcu(m: Mcu, p: Preds) returns (next: Preds)
      requires Valid() && Ready() && McuFits(ZigzagMcu(m), p)
      modifies `byteout, `bytenew, `bytepos, `whole, `written, DU
      ensures Valid() && Ready() && next == DcOf(ZigzagMcu(m))
      ensures Luma().Usable() && Chroma().Usable()
      ensures written == old(written) + McuBits(ZigzagMcu(m), p, Luma(), Chroma())
    {
      LumaUsable();
      ChromaUsable();
      hide Tables.Usable, BlockBits, InRange, Zigzag, Packed, Stuff, CategoriesFilled, Luma, Chroma;
      var dcy := ProcessDU(m.y, p.y, YDC_HT, YAC_HT);
      var dcu := ProcessDU(m.u, p.u, UVDC_HT, UVAC_HT);
      var dcv := ProcessDU(m.v, p.v, UVDC_HT, UVAC_HT);
      next := Preds(dcy, dcu, dcv);
      Regroup4(old(written), BlockBits(Zigzag(m.y), p.y, Luma()), BlockBits(Zigzag(m.u), p.u, Chroma()),
               BlockBits(Zigzag(m.v), p.v, Chroma()));
    }

    /** The scan loop of encode, over the quantised blocks, and the flush that fills the last byte with ones. */
    method WriteScan(mcus: seq<Mcu>)
      requires Valid() && Ready() && written == [] && ScanInRange(ZigzagScan(mcus), ZERO)
      modifies `byteout, `bytenew, `bytepos, `whole, `written, DU
      ensures Valid() && Ready() && bytepos == 7 && IsScan(written, mcus)
    {
      hide ScanLeft, ZigzagScan, Luma, Chroma, Tables.Usable, McuFits, IsScan, McuBits, ScanInRange,
          JpegEncoder.Valid, JpegEncoder.Ready;
      ScanStarts(mcus);
      var p, i := Preds(0, 0, 0), 0;
      while i < |mcus|
        invariant 0 <= i <= |mcus| && Valid() && Ready() && ScanLeft(written, mcus, i, p)
      {
        ScanAdvances(written, mcus, i, p);
        p := WriteMcu(mcus[i], p);
        i := i + 1;
      }
      ghost var bits := written;
      ghost var pad := Flush();
      ScanEnds(bits, mcus, p, pad);
    }

    method Flush() returns (ghost pad: Bits)
      requires Valid()
      modifies `byteout, `bytenew, `bytepos, `whole, `written
      ensures Valid() && bytepos == 7
      ensures IsPadding(pad) && written == old(written) + pad
    {
      PackedPosition(whole, written, bytenew, bytepos);
      if bytepos >= 0 {
        AllOnes(bytepos + 1);
        pad := seq(bytepos + 1, i => true);
        hide Packed, Stuff;
        WriteBits(BitCode(Pow2(bytepos + 1) - 1, bytepos + 1));
        PackedPosition(whole, written, bytenew, bytepos);
      }
    }

    // ---------- The header ----------

    method WriteByte(value: nat)
      modifies `byteout
      ensures byteout == old(byteout) + [value % 256]
    {
      byteout := byteout + [value % 256];
    }

    method WriteWord(value: nat)
      modifies `byteout
      ensures byteout == old(byteout) + Word(value)
    {
      WriteByte(value / 256);
      WriteByte(value);
    }

    /** One writeByte for each. */
    method WriteBytes(b: seq<Byte>)
      modifies `byteout
      ensures byteout == old(byteout) + b
    {
      for i := 0 to |b|
        invariant byteout == old(byteout) + b[..i]
      {
        WriteByte(b[i]);
        assert b[..i + 1] == b[..i] + [b[i]];
      }
      assert b[..|b|] == b;
    }

    method WriteSegmentStart(marker: Byte, length: nat)
      modifies `byteout
      ensures byteout == old(byteout) + ([0xff, marker] + Word(length))
    {
      WriteByte(0xff);
      WriteByte(marker);
      WriteWord(length);
    }

    method WriteQuantTables()
      requires |YTable| == 64 && |UVTable| == 64
      modifies `byteout
      ensures byteout == old(byteout) + Segment(0xdb, QuantPayload(YTable, UVTable))
    {
      hide Word;
      WriteSegmentStart(0xdb, 132);
      WriteByte(0);
      WriteBytes(YTable);
      WriteByte(1);
      WriteBytes(UVTable);
    }

    method WriteFrame(width: nat, height: nat)
      modifies `byteout
      ensures byteout == old(byteout) + Segment(0xc0, FramePayload(width, height))
    {
      hide Word;
      WriteSegmentStart(0xc0, 17);
      WriteByte(8);
      WriteWord(height);
      WriteWord(width);
      WriteByte(3);
      WriteBytes([1, 0x11, 0, 2, 0x11, 1, 3, 0x11, 1]);
    }

    method WriteTableSpec(kind: Byte, counts: seq<Byte>, values: seq<Byte>)
      requires |counts| == 17
      modifies `byteout
      ensures byteout == old(byteout) + TableSpec(kind, counts, values)
    {
      WriteByte(kind);
      for i := 0 to 16
        invariant byteout == old(byteout) + [kind] + counts[1..i + 1]
      {
        WriteByte(counts[i + 1]);
        assert counts[1..i + 2] == counts[1..i + 1] + [counts[i + 1]];
      }
      assert counts[1..17] == counts[1..];
      WriteBytes(values);
    }

    method WriteHuffmanTables()
      modifies `byteout
      ensures byteout == old(byteout) + Segment(0xc4, HuffmanPayload())
    {
      Lengths();
      hide Word, TableSpec;
      WriteSegmentStart(0xc4, 0x01a2);
      WriteTableSpec(0, STD_DC_LUMINANCE_NRCODES, STD_DC_LUMINANCE_VALUES);
      WriteTableSpec(0x10, STD_AC_LUMINANCE_NRCODES, STD_AC_LUMINANCE_VALUES);
      WriteTableSpec(1, STD_DC_CHROMINANCE_NRCODES, STD_DC_CHROMINANCE_VALUES);
      WriteTableSpec(0x11, STD_AC_CHROMINANCE_NRCODES, STD_AC_CHROMINANCE_VALUES);
    }

    method WriteApplicationData()
      modifies `byteout
      ensures byteout == old(byteout) + Segment(0xe0, JFIF)
    {
      assert Word(1) == [0, 1];
      hide Word;
      WriteSegmentStart(0xe0, 16);
      WriteBytes([0x4a, 0x46, 0x49, 0x46, 0]);
      WriteByte(1);
      WriteByte(1);
      WriteByte(0);
      WriteWord(1);
      WriteWord(1);
      WriteByte(0);
      WriteByte(0);
    }

    method WriteScanHeader()
      modifies `byteout
      ensures byteout == old(byteout) + Segment(0xda, SCAN)
    {
      hide Word;
      WriteSegmentStart(0xda, 12);
      WriteBytes(SCAN);
    }

    /** The header of encode, segment by segment. */
    method WriteHeader(width: nat, height: nat)
      requires |YTable| == 64 && |UVTable| == 64
      modifies `byteout
      ensures byteout == old(byteout) + Header(width, height, YTable, UVTable)
    {
      hide Segment, QuantPayload, FramePayload, HuffmanPayload;
      ghost var before := byteout;
      WriteByte(0xff);
      WriteByte(0xd8);
      assert byteout == before + SOI;
      WriteApplicationData();
      WriteQuantTables();
      WriteFrame(width, height);
      WriteHuffmanTables();
      WriteScanHeader();
      RegroupHeader(before, SOI, Segment(0xe0, JFIF), Segment(0xdb, QuantPayload(YTable, UVTable)),
                    Segment(0xc0, FramePayload(width, height)), Segment(0xc4, HuffmanPayload()), Segment(0xda, SCAN));
    }

    /** The header is out and no entropy-coded bit has been written. */
    method Begin(width: nat, height: nat)
      requires |YTable| == 64 && |UVTable| == 64
      modifies this
      ensures Valid() && written == [] && header == Header(width, height, YTable, UVTable)
    {
      hide Packed, Stuff, Header;
      byteout, bytenew, bytepos := [], 0, 7;
      WriteHeader(width, height);
      StartOfScan(byteout);
      header, whole, written := byteout, [], [];
      assert [] + byteout == byteout;
    }

    /** encode: a decoder reads the whole output back as the size, the quantisation tables and exactly the quantised
        blocks. */
    method Encode(width: nat, height: nat, mcus: seq<Mcu>) returns (out: seq<Byte>)
      requires Ready() && ScanInRange(ZigzagScan(mcus), ZERO)
      requires |mcus| == BlockCount(width, height)
      modifies this, DU
      ensures IsStream(out, Header(width, height, YTable, UVTable), mcus)
      ensures width < 65536 && height < 65536 ==> ReadJpeg(out) == Some(Picture(width, height, YTable, UVTable, mcus))
      ensures ReadJpeg(out).Some? && ReadJpeg(out).value.width == width && ReadJpeg(out).value.height == height ==>
                width < 65536 && height < 65536
    {
      hide Packed, JpegEncoder.ArraysReady, Luma, Chroma, ScanInRange, IsScan, IsStream, Stuff, BitsOf, ZigzagScan,
          Header, BlockCount, ReadJpeg;
      Begin(width, height);
      WriteScan(mcus);
      FullBytes(whole, written, bytenew, bytepos);
      byteout := byteout + [0xff] + [0xd9];
      out := byteout;
      StreamDecodes(header, whole, mcus);
      if width < 65536 && height < 65536 {
        StreamReads(width, height, YTable, UVTable, out, mcus);
      } else {
        WideIsCut(width, height, YTable, UVTable, out, mcus);
      }
    }
  }

  /** initCategoryNumber: for each category, its positive values and then its negative ones. */
  method InitCategoryNumber(category: array<int>, bitcode: array<BitCode>)
    requires category.Length == 65535 && bitcode.Length == 65535
    requires forall i :: 0 <= i < 65535 ==> category[i] == 0
    modifies category, bitcode
    ensures CategoriesFilled(category, bitcode)
  {
    var nrlower, nrupper := 1, 2;
    for cat := 1 to 16
      invariant nrlower == Pow2(cat - 1) && nrupper == Pow2(cat) && nrlower <= 32768
      invariant FilledBetween(category, bitcode, 32768 - nrlower, 32767 + nrlower)
    {
      CategoryLimit(cat);
      FillPositive(category, bitcode, cat, nrlower, nrupper);
      FillNegative(category, bitcode, cat, nrlower, nrupper);
      nrlower, nrupper := 2 * nrlower, 2 * nrupper;
    }
    CategoryLimit(15);
  }

  method FillPositive(category: array<int>, bitcode: array<BitCode>, cat: nat, nrlower: int, nrupper: int)
    requires category.Length == 65535 && bitcode.Length == 65535
    requires cat > 0 && nrlower == Pow2(cat - 1) && nrupper == Pow2(cat) <= 32768
    requires FilledBetween(category, bitcode, 32768 - nrlower, 32767 + nrlower)
    modifies category, bitcode
    ensures FilledBetween(category, bitcode, 32768 - nrlower, 32767 + nrupper)
  {
    assert nrupper == 2 * nrlower;
    hide Category, Pow2, MagnitudeCode;
    for nr := nrlower to nrupper
      invariant FilledBetween(category, bitcode, 32768 - nrlower, 32767 + nr)
    {
      PositiveEntry(nr, cat);
      category[32767 + nr] := cat;
      bitcode[32767 + nr] := BitCode(nr, cat);
    }
  }

  method FillNegative(category: array<int>, bitcode: array<BitCode>, cat: nat, nrlower: int, nrupper: int)
    requires category.Length == 65535 && bitcode.Length == 65535
    requires cat > 0 && nrlower == Pow2(cat - 1) && nrupper == Pow2(cat) <= 32768
    requires FilledBetween(category, bitcode, 32768 - nrlower, 32767 + nrupper)
    modifies category, bitcode
    ensures FilledBetween(category, bitcode, 32768 - nrupper, 32767 + nrupper)
  {
    assert nrupper == 2 * nrlower;
    hide Category, Pow2, MagnitudeCode;
    for nrneg := -(nrupper - 1) to -nrlower + 1
      invariant FilledBetween(category, bitcode, 32768 - nrlower, 32767 + nrupper)
      invariant FilledBetween(category, bitcode, 32768 - nrupper, 32767 + nrneg)
    {
      NegativeEntry(nrneg, cat);
      category[32767 + nrneg] := cat;
      bitcode[32767 + nrneg] := BitCode(nrupper - 1 + nrneg, cat);
    }
  }

  lemma CategoryLimit(cat: nat)
    requires 1 <= cat <= 15
    ensures Pow2(cat) <= 32768 && Pow2(15) == 32768 && Pow2(cat) == 2 * Pow2(cat - 1) && Pow2(cat + 1) == 2 * Pow2(cat)
  {
    Pow2Monotonic(cat, 15);
    assert Pow2(8) == 256 && Pow2(12) == 4096;
  }

  lemma PositiveEntry(nr: int, cat: nat)
    requires cat > 0 && Pow2(cat - 1) <= nr < Pow2(cat)
    ensures Category(nr) == cat && MagnitudeCode(nr) == nr
  {
    CategoryIs(nr, cat);
  }

  lemma NegativeEntry(nrneg: int, cat: nat)
    requires cat > 0 && Pow2(cat - 1) <= -nrneg < Pow2(cat)
    ensures Category(nrneg) == cat && MagnitudeCode(nrneg) == Pow2(cat) - 1 + nrneg
  {
    CategoryIs(nrneg, cat);
  }
}
