/** Which files are decoded: exactly the PNG files within the limits, and to which picture. */
module PngFormat {
  import opened Common
  import opened PngFilters
  import opened PngImages
  import opened PngCodec
  import opened PngPixels

  // ---------- The format ----------

  /** One chunk of a file; nothing reads its checksum. */
  datatype Piece = Piece(kind: seq<Byte>, body: seq<Byte>, check: seq<Byte>)
  {
    predicate Sized() {
      |kind| == 4 && |check| == 4 && |body| < 0x1_0000_0000
    }

    /** The letters of the type; their high bits do not count. */
    predicate Is(a: nat, b: nat, c: nat, d: nat) {
      |kind| == 4 && kind[0] % 128 == a && kind[1] % 128 == b && kind[2] % 128 == c && kind[3] % 128 == d
    }

    predicate IsHeader() {
      Is(73, 72, 68, 82)
    }

    predicate IsData() {
      Is(73, 68, 65, 84)
    }

    predicate IsEnd() {
      Is(73, 69, 78, 68)
    }

    /** The length, most significant byte first, then type, body and checksum. */
    function Printed(): seq<Byte>
      requires Sized()
    {
      UInt32BE(|body|) + kind + body + check
    }
  }

  predicate AllSized(ps: seq<Piece>) {
    forall p :: p in ps ==> p.Sized()
  }

  function PrintPieces(ps: seq<Piece>): seq<Byte>
    requires AllSized(ps)
  {
    if ps == [] then [] else ps[0].Printed() + PrintPieces(ps[1..])
  }

  /** The bodies of the data chunks, joined. */
  function ImageData(ps: seq<Piece>): seq<Byte>
    requires AllSized(ps)
  {
    if ps == [] then [] else (if ps[0].IsData() then ps[0].body else []) + ImageData(ps[1..])
  }

  /** What may follow the header: any chunks but another header, up to an empty end chunk, no body beyond the limit. */
  predicate Follow(ps: seq<Piece>, limit: nat) {
    && AllSized(ps) && ps != []
    && (forall i :: 0 <= i < |ps| ==> !ps[i].IsHeader() && |ps[i].body| <= limit)
    && (forall i :: 0 <= i < |ps| ==> (ps[i].IsEnd() <==> i == |ps| - 1))
    && ps[|ps| - 1].body == []
  }

  predicate HasData(ps: seq<Piece>)
    requires AllSized(ps)
  {
    exists i :: 0 <= i < |ps| && ps[i].IsData()
  }

  // ---------- Numbers ----------

  lemma WrittenRead(a: Byte, b: Byte, c: Byte, d: Byte)
    ensures ReadUInt32BE(a, b, c, d) < 0x1_0000_0000
    ensures UInt32BE(ReadUInt32BE(a, b, c, d)) == [a, b, c, d]
  {
    var n := ReadUInt32BE(a, b, c, d);
    assert n == a * 0x100_0000 + (b * 0x1_0000 + c * 256 + d);
    assert n / 0x100_0000 == a;
    assert n / 0x1_0000 == a * 256 + b;
    assert n / 256 == (a * 256 + b) * 256 + c;
  }

  // ---------- Parsing and printing ----------

  lemma PrintedParts(p: Piece, rest: seq<Byte>)
    requires p.Sized()
    ensures var all := p.Printed() + rest;
            && |all| == 12 + |p.body| + |rest| && ReadUInt32BE(all[0], all[1], all[2], all[3]) == |p.body|
            && all[4] == p.kind[0] && all[5] == p.kind[1] && all[6] == p.kind[2] && all[7] == p.kind[3]
            && all[8..8 + |p.body|] == p.body && all[12 + |p.body|..] == rest
  {
    ReadWritten(|p.body|);
    hide UInt32BE, ReadUInt32BE;
    FivePieces(UInt32BE(|p.body|), p.kind, p.body, p.check, rest);
  }

  lemma FivePieces(size: seq<Byte>, kind: seq<Byte>, body: seq<Byte>, check: seq<Byte>, rest: seq<Byte>)
    requires |size| == 4 && |kind| == 4 && |check| == 4
    ensures var all := size + kind + body + check + rest;
            && |all| == 12 + |body| + |rest|
            && all[0] == size[0] && all[1] == size[1] && all[2] == size[2] && all[3] == size[3]
            && all[4] == kind[0] && all[5] == kind[1] && all[6] == kind[2] && all[7] == kind[3]
            && all[8..8 + |body|] == body && all[12 + |body|..] == rest
  {}

  /** One chunk read. */
  lemma ParsePiece(p: Piece, rest: seq<Byte>, s: Scan, maxPixels: nat)
    requires p.Sized()
    ensures ParseChunks(p.Printed() + rest, s, maxPixels) ==
            if |p.body| > maxPixels * 4 then Err(ChunkTooLong)
            else if s.chunks + 1 > MAX_PNG_CHUNKS then Err(TooManyChunks)
            else
              var step := TakeChunk(p.kind[0], p.kind[1], p.kind[2], p.kind[3], p.body, s.(chunks := s.chunks + 1),
                  maxPixels);
              if step.Failed? then Err(step.error) else if step.Done? then Ok(step.scan)
              else ParseChunks(rest, step.scan, maxPixels)
  {
    PrintedParts(p, rest);
    hide TakeChunk, ReadUInt32BE, UInt32BE;
  }

  /** What the scan is after a chunk that can follow the header. */
  lemma TakesFollowing(p: Piece, s: Scan, maxPixels: nat)
    requires p.Sized() && s.header.Some?
    ensures var step := TakeChunk(p.kind[0], p.kind[1], p.kind[2], p.kind[3], p.body, s, maxPixels);
            && (p.IsHeader() ==> step == Failed(SecondIhdr))
            && (p.IsData() ==>
                  if |s.idat| + |p.body| > maxPixels * 4 then step == Failed(ImageDataTooLong)
                  else step == Next(s.(idat := s.idat + p.body, idatChunks := s.idatChunks + 1)))
            && (p.IsEnd() ==> step == if p.body == [] then Done(s) else Failed(IendNotEmpty))
            && (!p.IsHeader() && !p.IsData() && !p.IsEnd() ==> step == Next(s))
  {
    hide ParseHeader;
  }

  /** The scan after the chunks that followed. */
  predicate Scanned(ps: seq<Piece>, s: Scan, s': Scan)
    requires AllSized(ps)
  {
    && s'.header == s.header && s'.idat == s.idat + ImageData(ps) && s'.chunks == s.chunks + |ps|
    && s'.idatChunks >= s.idatChunks && (s'.idatChunks > s.idatChunks <==> HasData(ps))
  }

  lemma FollowStep(ps: seq<Piece>, limit: nat)
    requires Follow(ps, limit)
    ensures |ps[0].body| <= limit && !ps[0].IsHeader() && (ps[0].IsEnd() <==> |ps| == 1)
    ensures |ps| == 1 ==> ps[0].body == []
    ensures |ps| > 1 ==> Follow(ps[1..], limit) && ps == [ps[0]] + ps[1..]
    ensures ImageData(ps) == (if ps[0].IsData() then ps[0].body else []) + ImageData(ps[1..])
    ensures HasData(ps) <==> ps[0].IsData() || HasData(ps[1..])
  {
    hide ImageData;
    assert ImageData(ps) == (if ps[0].IsData() then ps[0].body else []) + ImageData(ps[1..]) by {
      DataStep(ps);
    }
    assert HasData(ps) <==> ps[0].IsData() || HasData(ps[1..]) by {
      HasDataStep(ps);
    }
    if |ps| > 1 {
      var qs := ps[1..];
      assert forall i :: 0 <= i < |qs| ==> qs[i] == ps[i + 1];
    }
  }

  lemma DataStep(ps: seq<Piece>)
    requires AllSized(ps) && ps != []
    ensures ImageData(ps) == (if ps[0].IsData() then ps[0].body else []) + ImageData(ps[1..])
  {}

  lemma HasDataStep(ps: seq<Piece>)
    requires AllSized(ps) && ps != []
    ensures HasData(ps) <==> ps[0].IsData() || HasData(ps[1..])
  {
    var qs := ps[1..];
    assert forall i :: 0 <= i < |qs| ==> qs[i] == ps[i + 1];
    if HasData(qs) {
      var i :| 0 <= i < |qs| && qs[i].IsData();
      assert ps[i + 1].IsData();
    }
    if HasData(ps) && !ps[0].IsData() {
      var i :| 0 <= i < |ps| && ps[i].IsData();
      assert qs[i - 1].IsData();
    }
  }

  lemma ScannedStep(ps: seq<Piece>, s: Scan, s1: Scan, s': Scan)
    requires AllSized(ps) && ps != [] && s1.header == s.header && s1.chunks == s.chunks + 1
    requires s1.idat == s.idat + (if ps[0].IsData() then ps[0].body else [])
    requires s1.idatChunks == s.idatChunks + (if ps[0].IsData() then 1 else 0)
    requires Scanned(ps[1..], s1, s')
    ensures Scanned(ps, s, s')
  {
    DataStep(ps);
    HasDataStep(ps);
    hide ImageData, HasData;
    Regroup(s.idat, if ps[0].IsData() then ps[0].body else [], ImageData(ps[1..]));
  }

  lemma ScannedOne(ps: seq<Piece>, s: Scan)
    requires AllSized(ps) && |ps| == 1 && !ps[0].IsData()
    ensures Scanned(ps, s, s.(chunks := s.chunks + 1))
  {
    assert ImageData(ps) == [] + ImageData(ps[1..]);
  }

  /** Chunks that may follow, written down, are read. */
  lemma {:induction false} FollowingParses(ps: seq<Piece>, rest: seq<Byte>, s: Scan, maxPixels: nat) returns (s': Scan)
    requires s.header.Some? && Follow(ps, maxPixels * 4) && s.chunks + |ps| <= 65536
    requires |s.idat| + |ImageData(ps)| <= maxPixels * 4
    ensures ParseChunks(PrintPieces(ps) + rest, s, maxPixels) == Ok(s') && Scanned(ps, s, s')
    decreases |ps|
  {
    var p, s1 := ps[0], s.(chunks := s.chunks + 1);
    FollowStep(ps, maxPixels * 4);
    hide Follow, ImageData, HasData, ParseChunks;
    TakesFollowing(p, s1, maxPixels);
    Regroup(p.Printed(), PrintPieces(ps[1..]), rest);
    ParsePiece(p, PrintPieces(ps[1..]) + rest, s, maxPixels);
    hide TakeChunk, PrintPieces, Scanned;
    KindsDiffer(p);
    if |ps| == 1 {
      s' := s1;
      ScannedOne(ps, s);
    } else {
      var s2 := if p.IsData() then s1.(idat := s1.idat + p.body, idatChunks := s1.idatChunks + 1) else s1;
      s' := FollowingParses(ps[1..], rest, s2, maxPixels);
      if !p.IsData() {
        assert s.idat + [] == s.idat;
      }
      ScannedStep(ps, s, s2, s');
    }
  }

  lemma KindsDiffer(p: Piece)
    requires p.Sized()
    ensures !(p.IsHeader() && p.IsData()) && !(p.IsHeader() && p.IsEnd()) && !(p.IsData() && p.IsEnd())
  {}

  lemma PieceOfData(data: seq<Byte>) returns (p: Piece)
    requires |data| >= 12 && ReadUInt32BE(data[0], data[1], data[2], data[3]) <= |data| - 12
    ensures p.Sized() && |p.body| == ReadUInt32BE(data[0], data[1], data[2], data[3])
    ensures data == p.Printed() + data[12 + |p.body|..]
  {
    var length := ReadUInt32BE(data[0], data[1], data[2], data[3]);
    WrittenRead(data[0], data[1], data[2], data[3]);
    p := Piece(data[4..8], data[8..8 + length], data[8 + length..12 + length]);
    hide UInt32BE, ReadUInt32BE;
    assert data == data[..4] + data[4..8] + data[8..8 + length] + data[8 + length..12 + length] + data[12 + length..];
    assert data[..4] == [data[0], data[1], data[2], data[3]];
  }

  lemma FollowCons(p: Piece, ps: seq<Piece>, limit: nat)
    requires p.Sized() && !p.IsHeader() && |p.body| <= limit
    requires if p.IsEnd() then p.body == [] && ps == [] else Follow(ps, limit)
    ensures Follow([p] + ps, limit) && ([p] + ps)[1..] == ps
  {
    var qs := [p] + ps;
    assert forall i :: 0 < i < |qs| ==> qs[i] == ps[i - 1];
  }

  /** What is read after a header is such a list of chunks. */
  lemma {:induction false} ParsedFollows(data: seq<Byte>, s: Scan, maxPixels: nat)
    returns (ps: seq<Piece>, rest: seq<Byte>)
    requires s.header.Some? && |s.idat| <= maxPixels * 4 && s.chunks <= 65536
    requires ParseChunks(data, s, maxPixels).Ok?
    ensures Follow(ps, maxPixels * 4) && data == PrintPieces(ps) + rest && s.chunks + |ps| <= 65536
    ensures |s.idat| + |ImageData(ps)| <= maxPixels * 4
    ensures Scanned(ps, s, ParseChunks(data, s, maxPixels).value)
    decreases |data|
  {
    hide TakeChunk, ReadUInt32BE, ImageData, HasData;
    var p := PieceOfData(data);
    var more, s1 := data[12 + |p.body|..], s.(chunks := s.chunks + 1);
    hide ParseChunks;
    ParsePiece(p, more, s, maxPixels);
    TakesFollowing(p, s1, maxPixels);
    KindsDiffer(p);
    hide Follow, Scanned;
    if p.IsEnd() {
      ps, rest := [p], more;
      FollowCons(p, [], maxPixels * 4);
      assert [p] + [] == [p];
      PrintOne(p);
      ScannedOne([p], s);
    } else {
      var s2 := if p.IsData() then s1.(idat := s1.idat + p.body, idatChunks := s1.idatChunks + 1) else s1;
      var qs;
      qs, rest := ParsedFollows(more, s2, maxPixels);
      ps := [p] + qs;
      FollowCons(p, qs, maxPixels * 4);
      FollowStep(ps, maxPixels * 4);
      PrintCons(p, qs);
      Regroup(p.Printed(), PrintPieces(qs), rest);
      if !p.IsData() {
        assert s.idat + [] == s.idat;
      }
      ScannedStep(ps, s, s2, ParseChunks(data, s, maxPixels).value);
    }
  }

  lemma PrintOne(p: Piece)
    requires p.Sized()
    ensures AllSized([p]) && PrintPieces([p]) == p.Printed() && ImageData([p]) == if p.IsData() then p.body else []
  {
    assert PrintPieces([p]) == p.Printed() + PrintPieces([]);
  }

  lemma PrintCons(p: Piece, ps: seq<Piece>)
    requires p.Sized() && AllSized(ps)
    ensures AllSized([p] + ps) && PrintPieces([p] + ps) == p.Printed() + PrintPieces(ps)
  {
    assert ([p] + ps)[1..] == ps;
  }

  // ---------- The header ----------

  /** Bytes per pixel of each colour type there is: grey, colour, and each with alpha. */
  predicate IsColorType(colorType: nat, bpp: nat) {
    || (colorType == 0 && bpp == 1) || (colorType == 2 && bpp == 3)
    || (colorType == 4 && bpp == 2) || (colorType == 6 && bpp == 4)
  }

  /** A header of eight-bit samples without interlacing, its sides and pixels within the limits. */
  predicate Describes(body: seq<Byte>, width: nat, height: nat, colorType: Byte, bpp: nat, maxPixels: nat) {
    && 0 < width <= 16384 && 0 < height <= 16384 && width * height <= maxPixels && IsColorType(colorType, bpp)
    && body == UInt32BE(width) + UInt32BE(height) + [8, colorType, 0, 0, 0]
  }

  lemma BppIs(colorType: Byte, bpp: nat)
    ensures IsColorType(colorType, bpp) <==> BytesPerPixel(colorType) == Some(bpp)
  {}

  lemma DescribedFits(width: nat, height: nat, bpp: nat, maxPixels: nat)
    requires width * height <= maxPixels && height <= 16384 && bpp <= 4
    ensures height * (width * bpp + 1) <= maxPixels * 4 + 16384
  {
    assert height * (width * bpp + 1) == (width * height) * bpp + height;
    assert (width * height) * bpp <= (width * height) * 4;
  }

  lemma HeaderBytes(body: seq<Byte>, w: seq<Byte>, h: seq<Byte>, tail: seq<Byte>)
    requires |w| == 4 && |h| == 4 && |tail| == 5
    ensures body == w + h + tail <==>
              |body| == 13 && [body[0], body[1], body[2], body[3]] == w && [body[4], body[5], body[6], body[7]] == h
              && [body[8], body[9], body[10], body[11], body[12]] == tail
  {
    if |body| == 13 {
      assert body == [body[0], body[1], body[2], body[3]] + [body[4], body[5], body[6], body[7]]
          + [body[8], body[9], body[10], body[11], body[12]];
    }
  }

  /** The bytes of a header and the sides they stand for. */
  lemma HeaderSides(body: seq<Byte>, width: nat, height: nat, colorType: Byte)
    requires |body| == 13 && width < 0x1_0000_0000 && height < 0x1_0000_0000
    ensures body == UInt32BE(width) + UInt32BE(height) + [8, colorType, 0, 0, 0] <==>
              && width == ReadUInt32BE(body[0], body[1], body[2], body[3])
              && height == ReadUInt32BE(body[4], body[5], body[6], body[7])
              && body[8] == 8 && body[9] == colorType && body[10] == 0 && body[11] == 0 && body[12] == 0
  {
    WrittenRead(body[0], body[1], body[2], body[3]);
    WrittenRead(body[4], body[5], body[6], body[7]);
    ReadWritten(width);
    ReadWritten(height);
    HeaderBytes(body, UInt32BE(width), UInt32BE(height), [8, colorType, 0, 0, 0]);
    hide UInt32BE, ReadUInt32BE;
  }

  /** When the reader accepts a header. */
  predicate Accepts(body: seq<Byte>, h: Header, maxPixels: nat)
    requires |body| == 13
  {
    && h.width == ReadUInt32BE(body[0], body[1], body[2], body[3])
    && h.height == ReadUInt32BE(body[4], body[5], body[6], body[7])
    && body[8] == 8 && body[9] == h.colorType && body[10] == 0 && body[11] == 0 && body[12] == 0
    && 0 < h.width <= 16384 && 0 < h.height <= 16384 && h.width * h.height <= maxPixels
    && BytesPerPixel(h.colorType) == Some(h.bpp) && h.expected == h.height * (h.width * h.bpp + 1)
  }

  lemma ReaderAccepts(body: seq<Byte>, h: Header, maxPixels: nat)
    requires |body| == 13
    ensures ParseHeader(body, maxPixels) == Ok(h) <==> Accepts(body, h, maxPixels)
  {
    hide ReadUInt32BE;
    var width, height := ReadUInt32BE(body[0], body[1], body[2], body[3]),
        ReadUInt32BE(body[4], body[5], body[6], body[7]);
    if BytesPerPixel(body[9]).Some? && height <= 16384 && width * height <= maxPixels {
      DescribedFits(width, height, BytesPerPixel(body[9]).value, maxPixels);
    }
  }

  /** Exactly these headers are accepted, and read as what they describe. */
  lemma {:induction false} HeaderLaw(body: seq<Byte>, h: Header, maxPixels: nat)
    requires |body| == 13
    ensures ParseHeader(body, maxPixels) == Ok(h) <==>
              && Describes(body, h.width, h.height, h.colorType, h.bpp, maxPixels)
              && h.expected == h.height * (h.width * h.bpp + 1)
  {
    hide UInt32BE, ReadUInt32BE, IsColorType, BytesPerPixel, ParseHeader;
    ReaderAccepts(body, h, maxPixels);
    BppIs(h.colorType, h.bpp);
    if h.width <= 16384 && h.height <= 16384 {
      HeaderSides(body, h.width, h.height, h.colorType);
    }
  }

  /** Why a header is refused, the first reason there is. */
  lemma {:induction false} HeaderRefusals(body: seq<Byte>, width: nat, height: nat, depth: Byte, colorType: Byte,
      compression: Byte, filter: Byte, interlace: Byte, maxPixels: nat)
    requires width < 0x1_0000_0000 && height < 0x1_0000_0000
    requires body == UInt32BE(width) + UInt32BE(height) + [depth, colorType, compression, filter, interlace]
    requires ParseHeader(body, maxPixels).Err?
    ensures ParseHeader(body, maxPixels).error ==
            if compression != 0 || filter != 0 then BadMethod
            else if depth != 8 then BadBitDepth
            else if interlace != 0 then Interlaced
            else if colorType !in [0, 2, 4, 6] then BadColorType
            else if width == 0 || height == 0 || width > 16384 || height > 16384 then BadDimensions
            else TooManyPixels
  {
    ReadWritten(width);
    ReadWritten(height);
    HeaderBytes(body, UInt32BE(width), UInt32BE(height), [depth, colorType, compression, filter, interlace]);
    if colorType in [0, 2, 4, 6] && height <= 16384 && width * height <= maxPixels {
      DescribedFits(width, height, BytesPerPixel(colorType).value, maxPixels);
    }
    hide UInt32BE, ReadUInt32BE;
  }

  /** Chunks that may follow a header, without an end chunk, are refused for that, or for a chunk that has begun. */
  lemma {:induction false} EndIsMissed(ps: seq<Piece>, more: seq<Byte>, s: Scan, maxPixels: nat)
    requires s.header.Some? && AllSized(ps) && |more| < 12 && s.chunks + |ps| <= 65536
    requires forall p :: p in ps ==> !p.IsHeader() && !p.IsEnd() && |p.body| <= maxPixels * 4
    requires |s.idat| + |ImageData(ps)| <= maxPixels * 4
    ensures ParseChunks(PrintPieces(ps) + more, s, maxPixels) == Err(if more == [] then NoIend else TruncatedHeader)
    decreases |ps|
  {
    if ps == [] {
      assert PrintPieces(ps) + more == more;
    } else {
      var p, s1 := ps[0], s.(chunks := s.chunks + 1);
      DataStep(ps);
      hide ImageData, HasData, ParseChunks;
      TakesFollowing(p, s1, maxPixels);
      Regroup(p.Printed(), PrintPieces(ps[1..]), more);
      ParsePiece(p, PrintPieces(ps[1..]) + more, s, maxPixels);
      hide TakeChunk, PrintPieces;
      var s2 := if p.IsData() then s1.(idat := s1.idat + p.body, idatChunks := s1.idatChunks + 1) else s1;
      EndIsMissed(ps[1..], more, s2, maxPixels);
    }
  }

  // ---------- The file ----------

  /** Each row of scanline data starts with one of the five filters. */
  ghost predicate RowsFiltered(raw: seq<Byte>, rowLength: nat) {
    forall y: nat :: Times(y, rowLength) < |raw| ==> raw[Times(y, rowLength)] <= 4
  }

  lemma RowsFilteredStep(raw: seq<Byte>, n: nat)
    requires n > 0 && raw != []
    ensures RowsFiltered(raw, n) <==> raw[0] <= 4 && (|raw| < n || RowsFiltered(raw[n..], n))
  {
    assert Times(0, n) == 0;
    hide Times;
    forall y: nat ensures Times(y + 1, n) == Times(y, n) + n {
      MoreTimes(y, n);
    }
    if |raw| >= n {
      var rest := raw[n..];
      if RowsFiltered(raw, n) {
        forall y: nat | Times(y, n) < |rest| ensures rest[Times(y, n)] <= 4 {
          assert rest[Times(y, n)] == raw[Times(y + 1, n)];
        }
      }
      if raw[0] <= 4 && RowsFiltered(rest, n) {
        forall y: nat | Times(y, n) < |raw| ensures raw[Times(y, n)] <= 4 {
          if y > 0 {
            assert Times(y - 1 + 1, n) == Times(y - 1, n) + n;
            assert raw[Times(y, n)] == rest[Times(y - 1, n)];
          }
        }
      }
    } else {
      forall y: nat | y > 0 ensures Times(y, n) >= n {
        assert Times(y - 1 + 1, n) == Times(y - 1, n) + n;
      }
    }
  }

  lemma {:induction false} FilterLaw(raw: seq<Byte>, n: nat)
    requires n > 0
    ensures FiltersOk(raw, n) <==> RowsFiltered(raw, n)
    decreases |raw|
  {
    if raw != [] {
      hide RowsFiltered;
      RowsFilteredStep(raw, n);
      if |raw| >= n {
        FilterLaw(raw[n..], n);
      }
    }
  }

  /** A header, data and an end, in at most 65536 chunks and with no more data than the limit. */
  predicate Laid(ps: seq<Piece>) {
    && 2 <= |ps| <= 65536 && ps[0].Sized() && ps[0].IsHeader()
    && Follow(ps[1..], 134_217_728) && |ImageData(ps[1..])| <= 134_217_728 && HasData(ps[1..])
  }

  /** The data is a PNG file, perhaps with more behind it, whose scanlines are those of i. */
  ghost predicate IsPng(data: seq<Byte>, ps: seq<Piece>, rest: seq<Byte>, inflate: Inflate, i: Inflated) {
    && Laid(ps) && Describes(ps[0].body, i.width, i.height, i.colorType, i.bpp, 33_554_432)
    && AllSized(ps) && |data| <= 134_217_728
    && data == [0x89, 0x50, 0x4e, 0x47, 0x0d, 0x0a, 0x1a, 0x0a] + PrintPieces(ps) + rest
    && var length := i.height * (i.width * i.bpp + 1);
       && length >= 0 && inflate(ImageData(ps[1..]), length) == Some(i.raw) && |i.raw| == length
       && i.width * i.bpp >= 0 && RowsFiltered(i.raw, i.width * i.bpp + 1)
  }

  lemma HeaderPiece(p: Piece, rest: seq<Byte>, maxPixels: nat)
    requires p.Sized() && p.IsHeader() && |p.body| <= maxPixels * 4
    ensures ParseChunks(p.Printed() + rest, START, maxPixels) ==
            if |p.body| != 13 then Err(BadIhdrLength)
            else
              var h := ParseHeader(p.body, maxPixels);
              if h.Err? then Err(h.error) else ParseChunks(rest, HeaderOnly(h.value), maxPixels)
  {
    ParsePiece(p, rest, START, maxPixels);
    hide ParseChunks, ParseHeader;
  }

  lemma OtherFirst(p: Piece, rest: seq<Byte>, maxPixels: nat)
    requires p.Sized() && !p.IsHeader()
    ensures ParseChunks(p.Printed() + rest, START, maxPixels) ==
            Err(if |p.body| > maxPixels * 4 then ChunkTooLong else IhdrNotFirst)
  {
    ParsePiece(p, rest, START, maxPixels);
    hide ParseChunks, ParseHeader;
  }

  /** A laid-out list of chunks is read as its header and its data. */
  lemma LaidParses(ps: seq<Piece>, rest: seq<Byte>, h: Header) returns (s: Scan)
    requires Laid(ps) && AllSized(ps) && |ps[0].body| == 13 && ParseHeader(ps[0].body, 33_554_432) == Ok(h)
    ensures ParseChunks(PrintPieces(ps) + rest, START, 33_554_432) == Ok(s)
    ensures s.header == Some(h) && s.idat == ImageData(ps[1..]) && s.idatChunks > 0
  {
    var qs := ps[1..];
    Regroup(ps[0].Printed(), PrintPieces(qs), rest);
    HeaderPiece(ps[0], PrintPieces(qs) + rest, 33_554_432);
    hide ParseChunks, ParseHeader, Follow, HasData, ImageData;
    s := FollowingParses(qs, rest, HeaderOnly(h), 33_554_432);
    assert [] + ImageData(qs) == ImageData(qs);
  }

  /** Whatever is read was laid out so. */
  lemma ParsedIsLaid(data: seq<Byte>) returns (ps: seq<Piece>, rest: seq<Byte>)
    requires ParseChunks(data, START, 33_554_432).Ok?
    requires var s := ParseChunks(data, START, 33_554_432).value; s.header.Some? && s.idatChunks > 0
    ensures Laid(ps) && AllSized(ps) && data == PrintPieces(ps) + rest && |ps[0].body| == 13
    ensures var s := ParseChunks(data, START, 33_554_432).value;
            ParseHeader(ps[0].body, 33_554_432) == Ok(s.header.value) && s.idat == ImageData(ps[1..])
  {
    hide TakeChunk, ParseHeader, ReadUInt32BE, ImageData, HasData, Follow;
    var p := PieceOfData(data);
    var more := data[12 + |p.body|..];
    assert |p.body| <= 33_554_432 * 4;
    hide ParseChunks;
    if !p.IsHeader() {
      OtherFirst(p, more, 33_554_432);
    }
    HeaderPiece(p, more, 33_554_432);
    var s0 := HeaderOnly(ParseHeader(p.body, 33_554_432).value);
    var qs;
    qs, rest := ParsedFollows(more, s0, 33_554_432);
    ps := [p] + qs;
    assert ps[1..] == qs;
    FollowNotEmpty(qs, 134_217_728);
    PrintCons(p, qs);
    Regroup(p.Printed(), PrintPieces(qs), rest);
    assert [] + ImageData(qs) == ImageData(qs);
  }

  lemma FollowNotEmpty(ps: seq<Piece>, limit: nat)
    requires Follow(ps, limit)
    ensures ps != [] && AllSized(ps)
  {}

  lemma RowLengths(h: Header)
    requires h.expected == h.height * (h.width * h.bpp + 1)
    ensures h.width * h.bpp >= 0 && RowLength(h.width, h.bpp) == h.width * h.bpp + 1
  {}

  /** Every PNG file within the limits is read. */
  lemma {:induction false} PngIsRead(data: seq<Byte>, ps: seq<Piece>, rest: seq<Byte>, inflate: Inflate, i: Inflated)
    requires IsPng(data, ps, rest, inflate, i)
    ensures InflatePng(data, MAX_SCREENSHOT_PNG_PIXELS, inflate) == Ok(i)
  {
    var h := Header(i.width, i.height, i.colorType, i.bpp, i.height * (i.width * i.bpp + 1));
    hide Laid, ImageData, FiltersOk, RowsFiltered, ParseChunks, ParseHeader;
    DescribedLength(ps[0].body, i.width, i.height, i.colorType, i.bpp);
    HeaderLaw(ps[0].body, h, 33_554_432);
    var s := LaidParses(ps, rest, h);
    var sign: seq<Byte> := SIGNATURE;
    Regroup(sign, PrintPieces(ps), rest);
    assert data == sign + (PrintPieces(ps) + rest) && data[..8] == sign && data[8..] == PrintPieces(ps) + rest;
    RowLengths(h);
    FilterLaw(i.raw, i.width * i.bpp + 1);
    hide PrintPieces, Describes;
  }

  lemma DescribedLength(body: seq<Byte>, width: nat, height: nat, colorType: Byte, bpp: nat)
    requires Describes(body, width, height, colorType, bpp, 33_554_432)
    ensures |body| == 13
  {
    hide UInt32BE;
  }

  lemma LaidFirst(ps: seq<Piece>)
    requires Laid(ps)
    ensures ps != []
  {}

  /** And whatever is read is one. */
  lemma {:induction false} ReadIsPng(data: seq<Byte>, inflate: Inflate) returns (ps: seq<Piece>, rest: seq<Byte>)
    requires InflatePng(data, MAX_SCREENSHOT_PNG_PIXELS, inflate).Ok?
    ensures IsPng(data, ps, rest, inflate, InflatePng(data, MAX_SCREENSHOT_PNG_PIXELS, inflate).value)
  {
    hide Laid, ImageData, FiltersOk, RowsFiltered, ParseChunks, ParseHeader;
    var i := InflatePng(data, MAX_SCREENSHOT_PNG_PIXELS, inflate).value;
    var s := ParseChunks(data[8..], START, 33_554_432).value;
    ps, rest := ParsedIsLaid(data[8..]);
    var h := s.header.value;
    LaidFirst(ps);
    HeaderLaw(ps[0].body, h, 33_554_432);
    RowLengths(h);
    FilterLaw(i.raw, i.width * i.bpp + 1);
    var sign: seq<Byte> := SIGNATURE;
    Regroup(sign, PrintPieces(ps), rest);
    assert data == data[..8] + data[8..];
    hide PrintPieces, Describes;
  }

  // ---------- The picture ----------

  /** Pixel x of row y of the picture shows the restored bytes of its place. */
  predicate PixelShown(i: Inflated, rows: seq<seq<Byte>>, rgba: seq<Byte>, x: nat, y: nat) {
    y < |rows| && Shows(i.colorType, PixelAt(rows[y], x * i.bpp, i.bpp), PixelAt(rgba, 4 * (y * i.width + x), 4))
  }

  /** Four bytes for each pixel, and every pixel shown. */
  ghost predicate Pictures(i: Inflated, rgba: seq<Byte>) {
    && |rgba| == i.width * i.height * 4
    && i.width * i.bpp >= 0
    && var rows := Rows(i.raw, Zeros(i.width * i.bpp), i.bpp);
       forall x: nat, y: nat :: x < i.width && y < i.height ==> PixelShown(i, rows, rgba, x, y)
  }

  lemma InflatedPictures(i: Inflated)
    requires BytesPerPixel(i.colorType) == Some(i.bpp) && i.width > 0 && i.height > 0
    requires |i.raw| == Times(i.height, Times(i.width, i.bpp) + 1)
    ensures Pictures(i, Decoded(i.raw, i.colorType, Times(i.width, i.bpp), i.bpp))
  {
    hide Times, Rows, ImageRgba, Shows, PixelAt, Zeros, Decoded;
    TimesIs(i.width, i.bpp);
    DecodedLength(i.raw, i.colorType, i.width, i.height, i.bpp);
    var rows, rgba := Rows(i.raw, Zeros(Times(i.width, i.bpp)), i.bpp),
        Decoded(i.raw, i.colorType, Times(i.width, i.bpp), i.bpp);
    forall x: nat, y: nat | x < i.width && y < i.height ensures PixelShown(i, rows, rgba, x, y) {
      EveryPixelShown(i.raw, i.colorType, i.width, i.height, i.bpp, x, y);
    }
  }

  /** Main result: what is decoded are exactly the PNG files within the limits, and every pixel of the picture shows
      what the file says of its place. */
  lemma {:induction false} DecodesExactlyPngs(data: seq<Byte>, inflate: Inflate)
    ensures Decode(data, inflate).Ok? <==> exists ps, rest, i :: IsPng(data, ps, rest, inflate, i)
    ensures forall ps, rest, i :: IsPng(data, ps, rest, inflate, i) ==>
              var image := Decode(data, inflate).value;
              image.width == i.width && image.height == i.height && Pictures(i, image.rgba)
  {
    hide IsPng, InflatePng, Pictures, Decoded;
    if Decode(data, inflate).Ok? {
      var ps, rest := ReadIsPng(data, inflate);
    }
    forall ps, rest, i | IsPng(data, ps, rest, inflate, i)
      ensures Decode(data, inflate).Ok?
              && Decode(data, inflate).value.width == i.width && Decode(data, inflate).value.height == i.height
              && Pictures(i, Decode(data, inflate).value.rgba)
    {
      PngIsRead(data, ps, rest, inflate, i);
      InflatedSound(data, MAX_SCREENSHOT_PNG_PIXELS, inflate);
      InflatedPictures(i);
    }
  }
}
