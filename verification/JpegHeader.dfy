/** The marker segments before the entropy-coded data, and a reader of them after sections B.2.2 to B.2.4 of ITU-T
    T.81. */
module JpegHeader {
  import opened Common
  import opened Huffman
  import opened JpegTables

  // ---------- Writing segments ----------

  /** writeWord: the high byte first; what is above 16 bits is lost. */
  function Word(n: nat): (b: seq<Byte>)
    ensures |b| == 2
  {
    [n / 256 % 256, n % 256]
  }

  function ReadWord(high: int, low: int): int {
    high * 256 + low
  }

  /** What is written of a number is its low 16 bits. */
  lemma WordReads(n: nat)
    ensures ReadWord(Word(n)[0], Word(n)[1]) == n % 65536
  {
    assert n == n / 65536 * 65536 + n % 65536;
    assert n / 256 == n / 65536 * 256 + n % 65536 / 256;
  }

  function Segment(marker: Byte, payload: seq<Byte>): seq<Byte> {
    [0xff, marker] + Word(|payload| + 2) + payload
  }

  const JFIF: seq<Byte> := [0x4a, 0x46, 0x49, 0x46, 0, 1, 1, 0, 0, 1, 0, 1, 0, 0]

  /** One table specification of a DHT segment: class and identity, how many codes of each length, the symbols. */
  function TableSpec(kind: Byte, counts: seq<Byte>, values: seq<Byte>): seq<Byte>
    requires |counts| == 17
  {
    [kind] + counts[1..] + values
  }

  function QuantPayload(yTable: seq<Byte>, uvTable: seq<Byte>): seq<Byte> {
    [0] + yTable + ([1] + uvTable)
  }

  function FramePayload(width: nat, height: nat): seq<Byte> {
    [8] + Word(height) + Word(width) + [3] + FRAME_TAIL
  }

  function HuffmanPayload(): seq<Byte> {
    TableSpec(0, STD_DC_LUMINANCE_NRCODES, STD_DC_LUMINANCE_VALUES)
    + (TableSpec(0x10, STD_AC_LUMINANCE_NRCODES, STD_AC_LUMINANCE_VALUES)
       + (TableSpec(1, STD_DC_CHROMINANCE_NRCODES, STD_DC_CHROMINANCE_VALUES)
          + TableSpec(0x11, STD_AC_CHROMINANCE_NRCODES, STD_AC_CHROMINANCE_VALUES)))
  }

  const SCAN: seq<Byte> := [3] + SCAN_SELECTORS + [0, 0x3f, 0]

  /** Everything encode writes before the blocks. */
  function Header(width: nat, height: nat, yTable: seq<Byte>, uvTable: seq<Byte>): seq<Byte> {
    SOI
    + (Segment(0xe0, JFIF)
       + (Segment(0xdb, QuantPayload(yTable, uvTable))
          + (Segment(0xc0, FramePayload(width, height))
             + (Segment(0xc4, HuffmanPayload())
                + Segment(0xda, SCAN)))))
  }

  // ---------- Reading segments ----------

  datatype Component = Component(id: Byte, sampling: Byte, quant: Byte)

  datatype Frame = Frame(width: nat, height: nat, components: seq<Component>)

  datatype Selector = Selector(id: Byte, tables: Byte)

  /** What has been read so far: quantisation tables by identity, Huffman tables by class and identity, the frame. */
  datatype Setup = Setup(quant: map<Byte, seq<Byte>>, huffman: map<Byte, map<int, BitCode>>, frame: Option<Frame>)

  const NOTHING := Setup(map[], map[], None)

  function ReadQuant(payload: seq<Byte>, quant: map<Byte, seq<Byte>>): Option<map<Byte, seq<Byte>>>
    decreases |payload|
  {
    if payload == [] then Some(quant)
    else if |payload| < 65 || payload[0] > 3 then None
    else ReadQuant(payload[65..], quant[payload[0] := payload[1..65]])
  }

  function Sum(counts: seq<Byte>): nat {
    if counts == [] then 0 else Sum(counts[..|counts| - 1]) + counts[|counts| - 1]
  }

  lemma {:induction false} SumOfCounts(counts: seq<Byte>, length: nat)
    requires |counts| == 17 && 1 <= length <= 17
    ensures FirstOf(counts, length).1 == Sum(counts[1..length])
  {
    if length > 1 {
      SumOfCounts(counts, length - 1);
      assert counts[1..length][..length - 2] == counts[1..length - 1];
    }
  }

  /** There are as many codes as the counts say. */
  lemma {:induction false} CodesCounted(counts: seq<Byte>)
    requires |counts| == 17
    ensures |Codes(counts)| == Sum(counts[1..])
  {
    hide FirstOf, Codes, EndValue, Sum;
    Totals(counts);
    SumOfCounts(counts, 17);
    assert counts[1..17] == counts[1..];
  }

  /** The table that counts and symbols stand for, generated as section C.2 says. */
  function TableFrom(counts: seq<Byte>, values: seq<Byte>): map<int, BitCode>
    requires |counts| == 16 && |values| == Sum(counts)
  {
    CodesCounted([0] + counts);
    assert ([0] + counts)[1..] == counts;
    TableOf(Codes([0] + counts), values)
  }

  function ReadHuffman(payload: seq<Byte>, huffman: map<Byte, map<int, BitCode>>): Option<map<Byte, map<int, BitCode>>>
    decreases |payload|
  {
    if payload == [] then Some(huffman)
    else if |payload| < 17 then None else
    var n := Sum(payload[1..17]);
    if |payload| < 17 + n then None else
    ReadHuffman(payload[17 + n..], huffman[payload[0] := TableFrom(payload[1..17], payload[17..17 + n])])
  }

  function ReadFrame(payload: seq<Byte>): Option<Frame> {
    if |payload| < 6 || payload[0] != 8 then None else
    var n: int := payload[5];
    if |payload| != 6 + 3 * n then None else
    Some(Frame(ReadWord(payload[3], payload[4]), ReadWord(payload[1], payload[2]), ReadComponents(payload[6..], n)))
  }

  function ReadComponents(b: seq<Byte>, n: nat): seq<Component>
    requires |b| == 3 * n
  {
    if n == 0 then [] else [Component(b[0], b[1], b[2])] + ReadComponents(b[3..], n - 1)
  }

  function ReadScan(payload: seq<Byte>): Option<seq<Selector>> {
    if |payload| < 1 then None else
    var n: int := payload[0];
    if |payload| != 4 + 2 * n || payload[1 + 2 * n..] != [0, 0x3f, 0] then None else
    Some(ReadSelectors(payload[1..1 + 2 * n], n))
  }

  function ReadSelectors(b: seq<Byte>, n: nat): seq<Selector>
    requires |b| == 2 * n
  {
    if n == 0 then [] else [Selector(b[0], b[1])] + ReadSelectors(b[2..], n - 1)
  }

  /** A segment other than the start of a scan. */
  function ReadSegment(marker: Byte, payload: seq<Byte>, s: Setup): Option<Setup> {
    if marker == 0xdb then
      var quant := ReadQuant(payload, s.quant);
      if quant.Some? then Some(s.(quant := quant.value)) else None
    else if marker == 0xc4 then
      var huffman := ReadHuffman(payload, s.huffman);
      if huffman.Some? then Some(s.(huffman := huffman.value)) else None
    else if marker == 0xc0 then
      var frame := ReadFrame(payload);
      if frame.Some? && s.frame.None? then Some(s.(frame := frame)) else None
    else if 0xe0 <= marker <= 0xef || marker == 0xfe then Some(s)
    else None
  }

  datatype Scan = Scan(setup: Setup, selectors: seq<Selector>, data: seq<Byte>)

  /** The segments up to the start of the scan, and what follows it. */
  function ReadSegments(bytes: seq<Byte>, s: Setup): Option<Scan>
    decreases |bytes|
  {
    if |bytes| < 4 || bytes[0] != 0xff then None else
    var length := ReadWord(bytes[2], bytes[3]);
    if length < 2 || |bytes| < 2 + length then None else
    var payload, rest := bytes[4..2 + length], bytes[2 + length..];
    if bytes[1] == 0xda then
      var selectors := ReadScan(payload);
      if selectors.Some? then Some(Scan(s, selectors.value, rest)) else None
    else
      var next := ReadSegment(bytes[1], payload, s);
      if next.Some? then ReadSegments(rest, next.value) else None
  }

  // ---------- Reading what was written ----------

  lemma SegmentParts(marker: Byte, payload: seq<Byte>, rest: seq<Byte>)
    requires |payload| < 65534
    ensures var b := Segment(marker, payload) + rest; var n := |payload| + 4;
            && |b| >= n && b[0] == 0xff && b[1] == marker && ReadWord(b[2], b[3]) == |payload| + 2
            && b[4..n] == payload && b[n..] == rest
  {
    WordReads(|payload| + 2);
    hide Word, ReadWord;
    var w := Word(|payload| + 2);
    assert w == [w[0], w[1]];
  }

  lemma SegmentReads(marker: Byte, payload: seq<Byte>, rest: seq<Byte>, s: Setup)
    requires |payload| < 65534 && marker != 0xda && ReadSegment(marker, payload, s).Some?
    ensures ReadSegments(Segment(marker, payload) + rest, s) ==
        ReadSegments(rest, ReadSegment(marker, payload, s).value)
  {
    hide ReadSegment, Segment, ReadScan, ReadWord;
    SegmentParts(marker, payload, rest);
  }

  lemma ScanReads(payload: seq<Byte>, rest: seq<Byte>, s: Setup)
    requires |payload| < 65534 && ReadScan(payload).Some?
    ensures ReadSegments(Segment(0xda, payload) + rest, s) == Some(Scan(s, ReadScan(payload).value, rest))
  {
    hide ReadSegment, Segment, ReadScan, ReadWord;
    SegmentParts(0xda, payload, rest);
  }

  lemma SpecParts(kind: Byte, counts: seq<Byte>, values: seq<Byte>, rest: seq<Byte>)
    requires |counts| == 17
    ensures var b := TableSpec(kind, counts, values) + rest; var n := 17 + |values|;
            |b| >= n && b[0] == kind && b[1..17] == counts[1..] && b[17..n] == values && b[n..] == rest
  {}

  lemma HuffmanStep(b: seq<Byte>, n: nat, huffman: map<Byte, map<int, BitCode>>)
    requires |b| >= 17 + n && Sum(b[1..17]) == n
    ensures ReadHuffman(b, huffman) == ReadHuffman(b[17 + n..], huffman[b[0] := TableFrom(b[1..17], b[17..17 + n])])
  {
    hide Sum, TableFrom;
  }

  lemma TableFromIs(counts: seq<Byte>, values: seq<Byte>)
    requires |counts| == 17 && counts[0] == 0 && |Codes(counts)| == |values|
    ensures |values| == Sum(counts[1..]) && TableFrom(counts[1..], values) == StandardTable(counts, values)
  {
    CodesCounted(counts);
    assert [0] + counts[1..] == counts;
    hide Codes, Sum, TableOf;
  }

  /** A table specification is read as the table that computeHuffmanTbl builds from the same counts and symbols. */
  lemma {:induction false} SpecReads(kind: Byte, counts: seq<Byte>, values: seq<Byte>, rest: seq<Byte>,
      huffman: map<Byte, map<int, BitCode>>)
    requires |counts| == 17 && counts[0] == 0 && |Codes(counts)| == |values|
    ensures ReadHuffman(TableSpec(kind, counts, values) + rest, huffman) ==
            ReadHuffman(rest, huffman[kind := StandardTable(counts, values)])
  {
    hide Codes, TableSpec, Sum, TableOf, ReadHuffman, TableFrom, StandardTable;
    TableFromIs(counts, values);
    SpecParts(kind, counts, values, rest);
    HuffmanStep(TableSpec(kind, counts, values) + rest, |values|, huffman);
  }

  ghost function StandardHuffman(): map<Byte, map<int, BitCode>> {
    map[0 := Luma().dc, 0x10 := Luma().ac, 1 := Chroma().dc, 0x11 := Chroma().ac]
  }

  lemma FirstIsZero()
    ensures STD_DC_LUMINANCE_NRCODES[0] == 0 && STD_AC_LUMINANCE_NRCODES[0] == 0
    ensures STD_DC_CHROMINANCE_NRCODES[0] == 0 && STD_AC_CHROMINANCE_NRCODES[0] == 0
  {}

  lemma HuffmanReads()
    ensures ReadHuffman(HuffmanPayload(), map[]) == Some(StandardHuffman())
  {
    LuminanceCounts();
    ChrominanceCounts();
    FirstIsZero();
    Lengths();
    hide Codes, ReadHuffman, TableSpec, StandardTable;
    ghost var m0: map<Byte, map<int, BitCode>> := map[];
    var m1 := m0[0 := Luma().dc];
    var m2 := m1[0x10 := Luma().ac];
    var m3 := m2[1 := Chroma().dc];
    var t2 := TableSpec(0x10, STD_AC_LUMINANCE_NRCODES, STD_AC_LUMINANCE_VALUES);
    var t3 := TableSpec(1, STD_DC_CHROMINANCE_NRCODES, STD_DC_CHROMINANCE_VALUES);
    var t4 := TableSpec(0x11, STD_AC_CHROMINANCE_NRCODES, STD_AC_CHROMINANCE_VALUES);
    SpecReads(0, STD_DC_LUMINANCE_NRCODES, STD_DC_LUMINANCE_VALUES, t2 + (t3 + t4), m0);
    SpecReads(0x10, STD_AC_LUMINANCE_NRCODES, STD_AC_LUMINANCE_VALUES, t3 + t4, m1);
    SpecReads(1, STD_DC_CHROMINANCE_NRCODES, STD_DC_CHROMINANCE_VALUES, t4, m2);
    SpecReads(0x11, STD_AC_CHROMINANCE_NRCODES, STD_AC_CHROMINANCE_VALUES, [], m3);
    assert t4 + [] == t4;
    NoSpecLeft(m3[0x11 := Chroma().ac]);
  }

  lemma NoSpecLeft(huffman: map<Byte, map<int, BitCode>>)
    ensures ReadHuffman([], huffman) == Some(huffman)
  {}

  lemma Lengths()
    ensures |STD_DC_LUMINANCE_VALUES| == 12 && |STD_AC_LUMINANCE_VALUES| == 162
    ensures |STD_DC_CHROMINANCE_VALUES| == 12 && |STD_AC_CHROMINANCE_VALUES| == 162
    ensures |HuffmanPayload()| == 0x1a0
  {}

  lemma QuantStep(id: Byte, table: seq<Byte>, rest: seq<Byte>, quant: map<Byte, seq<Byte>>)
    requires |table| == 64 && id <= 3
    ensures ReadQuant([id] + table + rest, quant) == ReadQuant(rest, quant[id := table])
  {
    var b: seq<Byte> := [id] + table + rest;
    assert b[0] == id && b[1..65] == table && b[65..] == rest;
  }

  lemma QuantReads(yTable: seq<Byte>, uvTable: seq<Byte>)
    requires |yTable| == 64 && |uvTable| == 64
    ensures ReadQuant(QuantPayload(yTable, uvTable), map[]) == Some(map[0 := yTable, 1 := uvTable])
  {
    QuantStep(0, yTable, [1] + uvTable, map[]);
    QuantStep(1, uvTable, [], map[0 := yTable]);
    assert [1] + uvTable + [] == [1] + uvTable;
  }

  const COMPONENTS := [Component(1, 0x11, 0), Component(2, 0x11, 1), Component(3, 0x11, 1)]
  const SELECTORS := [Selector(1, 0), Selector(2, 0x11), Selector(3, 0x11)]

  const FRAME_TAIL: seq<Byte> := [1, 0x11, 0, 2, 0x11, 1, 3, 0x11, 1]

  lemma ComponentsRead()
    ensures ReadComponents(FRAME_TAIL, 3) == COMPONENTS
  {
    var b := FRAME_TAIL;
    assert b[3..] == [2, 0x11, 1, 3, 0x11, 1] && b[3..][3..] == [3, 0x11, 1] && b[3..][3..][3..] == [];
    assert ReadComponents(b[3..][3..], 1) == [Component(3, 0x11, 1)];
    assert ReadComponents(b[3..], 2) == [Component(2, 0x11, 1), Component(3, 0x11, 1)];
  }

  lemma FrameReads(width: nat, height: nat)
    ensures ReadFrame(FramePayload(width, height)) == Some(Frame(width % 65536, height % 65536, COMPONENTS))
  {
    WordReads(width);
    WordReads(height);
    ComponentsRead();
    hide Word, ReadWord, ReadComponents;
    var b := FramePayload(width, height);
    assert b[1] == Word(height)[0] && b[2] == Word(height)[1] && b[3] == Word(width)[0] && b[4] == Word(width)[1];
    assert b[5] == 3 && b[6..] == FRAME_TAIL;
  }

  const SCAN_SELECTORS: seq<Byte> := [1, 0, 2, 0x11, 3, 0x11]

  lemma SelectorsAre()
    ensures ReadSelectors(SCAN_SELECTORS, 3) == SELECTORS
  {
    var b := SCAN_SELECTORS;
    assert b[2..] == [2, 0x11, 3, 0x11] && b[2..][2..] == [3, 0x11] && b[2..][2..][2..] == [];
    assert ReadSelectors(b[2..][2..], 1) == [Selector(3, 0x11)];
    assert ReadSelectors(b[2..], 2) == [Selector(2, 0x11), Selector(3, 0x11)];
  }

  lemma SelectorsRead()
    ensures ReadScan(SCAN) == Some(SELECTORS)
  {
    SelectorsAre();
    hide ReadSelectors;
    assert SCAN[0] == 3 && SCAN[7..] == [0, 0x3f, 0] && SCAN[1..7] == SCAN_SELECTORS;
  }

  const SOI: seq<Byte> := [0xff, 0xd8]

  /** The image from its start to the data of the scan. */
  function ReadHeader(bytes: seq<Byte>): Option<Scan> {
    if |bytes| < 2 || bytes[..2] != SOI then None else ReadSegments(bytes[2..], NOTHING)
  }

  ghost function Described(width: nat, height: nat, yTable: seq<Byte>, uvTable: seq<Byte>): Setup {
    Setup(map[0 := yTable, 1 := uvTable], StandardHuffman(), Some(Frame(width % 65536, height % 65536, COMPONENTS)))
  }

  /** The segments of the header, and what follows them. */
  function Segments(quant: seq<Byte>, frame: seq<Byte>, huffman: seq<Byte>, data: seq<Byte>): seq<Byte> {
    Segment(0xe0, JFIF) + (Segment(0xdb, quant)
        + (Segment(0xc0, frame) + (Segment(0xc4, huffman) + (Segment(0xda, SCAN) + data))))
  }

  lemma SegmentsRead(quant: seq<Byte>, frame: seq<Byte>, huffman: seq<Byte>, data: seq<Byte>,
                     q: map<Byte, seq<Byte>>, f: Frame, h: map<Byte, map<int, BitCode>>)
    requires |quant| < 65534 && |frame| < 65534 && |huffman| < 65534
    requires ReadQuant(quant, map[]) == Some(q) && ReadFrame(frame) == Some(f) && ReadHuffman(huffman, map[]) == Some(h)
    ensures ReadSegments(Segments(quant, frame, huffman, data), NOTHING) ==
        Some(Scan(Setup(q, h, Some(f)), SELECTORS, data))
  {
    SelectorsRead();
    hide ReadSegments, ReadQuant, ReadHuffman, ReadFrame, ReadScan, Segment;
    var s4 := Segment(0xda, SCAN) + data;
    var s3 := Segment(0xc4, huffman) + s4;
    var s2 := Segment(0xc0, frame) + s3;
    var s1 := Segment(0xdb, quant) + s2;
    SegmentReads(0xe0, JFIF, s1, NOTHING);
    SegmentReads(0xdb, quant, s2, NOTHING);
    SegmentReads(0xc0, frame, s3, NOTHING.(quant := q));
    SegmentReads(0xc4, huffman, s4, NOTHING.(quant := q, frame := Some(f)));
    ScanReads(SCAN, data, Setup(q, h, Some(f)));
  }

  lemma HeaderParts(width: nat, height: nat, yTable: seq<Byte>, uvTable: seq<Byte>, data: seq<Byte>)
    ensures Header(width, height, yTable, uvTable) + data
            == SOI + Segments(QuantPayload(yTable, uvTable), FramePayload(width, height), HuffmanPayload(), data)
  {
    hide Segment, QuantPayload, FramePayload, HuffmanPayload;
  }

  lemma SoiRead(rest: seq<Byte>)
    ensures ReadHeader(SOI + rest) == ReadSegments(rest, NOTHING)
  {
    hide ReadSegments;
    assert (SOI + rest)[..2] == SOI && (SOI + rest)[2..] == rest;
  }

  /** The header reads back as the low 16 bits of its sides, its quantisation tables and the very Huffman tables the
      blocks are coded with. */
  lemma {:induction false} HeaderReads(width: nat, height: nat, yTable: seq<Byte>, uvTable: seq<Byte>, data: seq<Byte>)
    requires |yTable| == 64 && |uvTable| == 64
    ensures ReadHeader(Header(width, height, yTable, uvTable) + data) ==
        Some(Scan(Described(width, height, yTable, uvTable), SELECTORS, data))
  {
    QuantReads(yTable, uvTable);
    FrameReads(width, height);
    HuffmanReads();
    Lengths();
    var quant, frame := QuantPayload(yTable, uvTable), FramePayload(width, height);
    assert |quant| == 130 && |frame| == 15;
    hide ReadHeader, ReadSegments, ReadQuant, ReadHuffman, ReadFrame, HuffmanPayload, StandardHuffman, Header,
        Segments, QuantPayload, FramePayload;
    HeaderParts(width, height, yTable, uvTable, data);
    SoiRead(Segments(quant, frame, HuffmanPayload(), data));
    SegmentsRead(quant, frame, HuffmanPayload(), data, map[0 := yTable, 1 := uvTable],
        Frame(width % 65536, height % 65536, COMPONENTS), StandardHuffman());
  }
}
