/** The PNG container: chunk scanning, writing, and the round trip of screenshots. */
module PngCodec {
  import opened Common
  import opened PngFilters
  import opened PngImages

  const SIGNATURE: seq<Byte> := [0x89, 0x50, 0x4e, 0x47, 0x0d, 0x0a, 0x1a, 0x0a]
  const IHDR: seq<Byte> := [73, 72, 68, 82]
  const IDAT: seq<Byte> := [73, 68, 65, 84]
  const IEND: seq<Byte> := [73, 69, 78, 68]
  const MAX_PNG_DIMENSION := 16384
  const MAX_SCREENSHOT_PNG_PIXELS := 33_554_432
  const MAX_PNG_CHUNKS := 65536

  datatype PngError =
    | InputTooLarge | BadSignature | TruncatedHeader | ChunkTooLong | TooManyChunks | BadLength | IhdrNotFirst
    | SecondIhdr | BadIhdrLength | BadMethod | BadBitDepth | Interlaced | BadColorType | BadDimensions | TooManyPixels
    | ScanlinesTooLong | ImageDataTooLong | IendNotEmpty | NoIhdr | NoIend | NoImageData | BadCompression |
        EndedEarly | BadFilter

  // ---------- Numbers ----------

  function UInt32BE(n: nat): (b: seq<Byte>)
    requires n < 0x1_0000_0000
    ensures |b| == 4
  {
    [n / 0x100_0000, n / 0x1_0000 % 256, n / 256 % 256, n % 256]
  }

  function ReadUInt32BE(a: Byte, b: Byte, c: Byte, d: Byte): nat {
    a * 0x100_0000 + b * 0x1_0000 + c * 256 + d
  }

  lemma {:induction false} ReadWritten(n: nat)
    requires n < 0x1_0000_0000
    ensures var b := UInt32BE(n); ReadUInt32BE(b[0], b[1], b[2], b[3]) == n
  {
    assert n / 256 == n / 0x1_0000 * 256 + n / 256 % 256;
    assert n / 0x1_0000 == n / 0x100_0000 * 256 + n / 0x1_0000 % 256;
  }

  // ---------- Scanning ----------

  datatype Header = Header(width: nat, height: nat, colorType: Byte, bpp: nat, expected: nat)

  datatype Scan = Scan(header: Option<Header>, idat: seq<Byte>, idatChunks: nat, chunks: nat)

  /** The type is read as 7-bit ASCII, so the high bits do not count. */
  predicate TypeIs(a: Byte, b: Byte, c: Byte, d: Byte, name: seq<Byte>)
    requires |name| == 4
  {
    a % 128 == name[0] && b % 128 == name[1] && c % 128 == name[2] && d % 128 == name[3]
  }

  function RowLength(width: nat, bpp: nat): (n: nat)
    ensures n > 0
  {
    width * bpp + 1
  }

  /** getExpectedScanlineLength */
  function ScanlineLength(width: nat, height: nat, bpp: nat): nat {
    height * (width * bpp + 1)
  }

  function ParseHeader(chunk: seq<Byte>, maxPixels: nat): Result<Header, PngError>
    requires |chunk| == 13
  {
    var width, height := ReadUInt32BE(chunk[0], chunk[1], chunk[2], chunk[3]),
        ReadUInt32BE(chunk[4], chunk[5], chunk[6], chunk[7]);
    if chunk[10] != 0 || chunk[11] != 0 then Err(BadMethod)
    else if chunk[8] != 8 then Err(BadBitDepth)
    else if chunk[12] != 0 then Err(Interlaced)
    else if BytesPerPixel(chunk[9]).None? then Err(BadColorType)
    else if width <= 0 || height <= 0 || width > MAX_PNG_DIMENSION || height > MAX_PNG_DIMENSION then Err(BadDimensions)
    else if width * height > maxPixels then Err(TooManyPixels)
    else
      var bpp := BytesPerPixel(chunk[9]).value;
      var expected := ScanlineLength(width, height, bpp);
      if expected > maxPixels * 4 + MAX_PNG_DIMENSION then Err(ScanlinesTooLong)
      else Ok(Header(width, height, chunk[9], bpp, expected))
  }

  datatype Step = Failed(error: PngError) | Next(scan: Scan) | Done(scan: Scan)

  /** What one chunk does to the scan. */
  function TakeChunk(a: Byte, b: Byte, c: Byte, d: Byte, chunk: seq<Byte>, s: Scan, maxPixels: nat): Step {
    if s.header.None? && !TypeIs(a, b, c, d, IHDR) then Failed(IhdrNotFirst)
    else if TypeIs(a, b, c, d, IHDR) then
      if s.header.Some? then Failed(SecondIhdr)
      else if |chunk| != 13 then Failed(BadIhdrLength)
      else
        var h := ParseHeader(chunk, maxPixels);
        if h.Err? then Failed(h.error) else Next(s.(header := Some(h.value)))
    else if TypeIs(a, b, c, d, IDAT) then
      if |chunk| > maxPixels * 4 - |s.idat| then Failed(ImageDataTooLong)
      else Next(s.(idat := s.idat + chunk, idatChunks := s.idatChunks + 1))
    else if TypeIs(a, b, c, d, IEND) then
      if |chunk| != 0 then Failed(IendNotEmpty) else Done(s)
    else Next(s)
  }

  function ParseChunks(data: seq<Byte>, s: Scan, maxPixels: nat): Result<Scan, PngError>
    decreases |data|
  {
    if data == [] then Err(if s.header.None? then NoIhdr else NoIend)
    else if |data| < 12 then Err(TruncatedHeader)
    else
      var length := ReadUInt32BE(data[0], data[1], data[2], data[3]);
      if length > maxPixels * 4 then Err(ChunkTooLong)
      else if s.chunks + 1 > MAX_PNG_CHUNKS then Err(TooManyChunks)
      else if length > |data| - 12 then Err(BadLength)
      else
        var step := TakeChunk(data[4], data[5], data[6], data[7], data[8..8 + length], s.(chunks := s.chunks + 1),
            maxPixels);
        match step
        case Failed(e) => Err(e)
        case Done(s') => Ok(s')
        case Next(s') => ParseChunks(data[12 + length..], s', maxPixels)
  }

  datatype Inflated = Inflated(width: nat, height: nat, colorType: Byte, bpp: nat, raw: seq<Byte>)

  /** Inflates compressed data into at most so many bytes, or fails. */
  type Inflate = (seq<Byte>, nat) -> Option<seq<Byte>>
  type Deflate = seq<Byte> -> seq<Byte>

  /** Every row's filter byte is one of the five. */
  predicate FiltersOk(raw: seq<Byte>, rowLength: nat)
    requires rowLength > 0
    decreases |raw|
  {
    raw == [] || (raw[0] <= 4 && (|raw| < rowLength || FiltersOk(raw[rowLength..], rowLength)))
  }

  const START := Scan(None, [], 0, 0)

  function InflatePng(data: seq<Byte>, maxPixels: nat, inflate: Inflate): Result<Inflated, PngError> {
    if |data| > maxPixels * 4 then Err(InputTooLarge)
    else if |data| < 8 || data[..8] != SIGNATURE then Err(BadSignature)
    else
      var parsed := ParseChunks(data[8..], START, maxPixels);
      if parsed.Err? then Err(parsed.error)
      else if parsed.value.header.None? then Err(NoIhdr)
      else if parsed.value.idatChunks == 0 then Err(NoImageData)
      else
        var h := parsed.value.header.value;
        var raw := inflate(parsed.value.idat, h.expected);
        if raw.None? then Err(BadCompression)
        else if |raw.value| != h.expected then Err(EndedEarly)
        else if !FiltersOk(raw.value, RowLength(h.width, h.bpp)) then Err(BadFilter)
        else Ok(Inflated(h.width, h.height, h.colorType, h.bpp, raw.value))
  }

  /** A known colour type, sides and pixels within the limits, and the scanline length of that size. */
  predicate SoundHeader(h: Header, maxPixels: nat) {
    && 0 < h.width <= MAX_PNG_DIMENSION && 0 < h.height <= MAX_PNG_DIMENSION && h.width * h.height <= maxPixels
    && BytesPerPixel(h.colorType) == Some(h.bpp) && h.expected == ScanlineLength(h.width, h.height, h.bpp)
    && h.expected <= maxPixels * 4 + MAX_PNG_DIMENSION
  }

  lemma {:induction false} ParsedHeaderSound(data: seq<Byte>, s: Scan, maxPixels: nat)
    requires s.header.Some? ==> SoundHeader(s.header.value, maxPixels)
    ensures var r := ParseChunks(data, s, maxPixels);
            r.Ok? && r.value.header.Some? ==> SoundHeader(r.value.header.value, maxPixels)
    decreases |data|
  {
    if |data| >= 12 {
      var length := ReadUInt32BE(data[0], data[1], data[2], data[3]);
      if length <= |data| - 12 {
        var chunk, s1 := data[8..8 + length], s.(chunks := s.chunks + 1);
        var step := TakeChunk(data[4], data[5], data[6], data[7], chunk, s1, maxPixels);
        TakenSound(data[4], data[5], data[6], data[7], chunk, s1, maxPixels);
        hide TakeChunk, SoundHeader, ReadUInt32BE;
        if step.Next? {
          ParsedHeaderSound(data[12 + length..], step.scan, maxPixels);
        }
      }
    }
  }

  lemma TakenSound(a: Byte, b: Byte, c: Byte, d: Byte, chunk: seq<Byte>, s: Scan, maxPixels: nat)
    requires s.header.Some? ==> SoundHeader(s.header.value, maxPixels)
    ensures var step := TakeChunk(a, b, c, d, chunk, s, maxPixels);
            !step.Failed? && step.scan.header.Some? ==> SoundHeader(step.scan.header.value, maxPixels)
  {
    hide TypeIs, ReadUInt32BE;
    if |chunk| == 13 {
      var h := ParseHeader(chunk, maxPixels);
      assert h.Ok? ==> SoundHeader(h.value, maxPixels);
    }
    hide ParseHeader, SoundHeader;
  }

  lemma {:induction false} InflatedSound(data: seq<Byte>, maxPixels: nat, inflate: Inflate)
    requires InflatePng(data, maxPixels, inflate).Ok?
    ensures var i := InflatePng(data, maxPixels, inflate).value;
            && |data| <= maxPixels * 4
            && 0 < i.width <= MAX_PNG_DIMENSION && 0 < i.height <= MAX_PNG_DIMENSION && i.width * i.height <= maxPixels
            && BytesPerPixel(i.colorType) == Some(i.bpp)
            && |i.raw| == Times(i.height, Times(i.width, i.bpp) + 1)
  {
    hide ParseChunks, FiltersOk, BytesPerPixel;
    ParsedHeaderSound(data[8..], START, maxPixels);
    var i := InflatePng(data, maxPixels, inflate).value;
    TimesIs(i.width, i.bpp);
    TimesIs(i.height, Times(i.width, i.bpp) + 1);
  }

  // ---------- Decoding ----------

  datatype Image = Image(width: nat, height: nat, rgba: seq<Byte>)

  /** decodeScreenshotPngToRgba */
  function Decode(data: seq<Byte>, inflate: Inflate): Result<Image, PngError> {
    var i := InflatePng(data, MAX_SCREENSHOT_PNG_PIXELS, inflate);
    if i.Err? then Err(i.error) else
    InflatedSound(data, MAX_SCREENSHOT_PNG_PIXELS, inflate);
    Ok(Image(i.value.width, i.value.height,
        Decoded(i.value.raw, i.value.colorType, Times(i.value.width, i.value.bpp), i.value.bpp)))
  }

  /** inflatePng: the scan from chunk to chunk. */
  method InflatePngData(data: seq<Byte>, maxPixels: nat, inflate: Inflate) returns (r: Result<Inflated, PngError>)
    ensures r == InflatePng(data, maxPixels, inflate)
  {
    hide TakeChunk, ParseHeader, ReadUInt32BE, FiltersOk, ParseChunks;
    if |data| > maxPixels * 4 {
      return Err(InputTooLarge);
    }
    if |data| < 8 || data[..8] != SIGNATURE {
      return Err(BadSignature);
    }
    var scan := ScanChunks(data, maxPixels);
    if scan.Err? {
      return Err(scan.error);
    }
    if scan.value.header.None? {
      return Err(NoIhdr);
    }
    if scan.value.idatChunks == 0 {
      return Err(NoImageData);
    }
    var h := scan.value.header.value;
    var raw := inflate(scan.value.idat, h.expected);
    if raw.None? {
      return Err(BadCompression);
    }
    if |raw.value| != h.expected {
      return Err(EndedEarly);
    }
    var ok := CheckFilters(raw.value, RowLength(h.width, h.bpp));
    r := if ok then Ok(Inflated(h.width, h.height, h.colorType, h.bpp, raw.value)) else Err(BadFilter);
  }

  method ScanChunks(data: seq<Byte>, maxPixels: nat) returns (r: Result<Scan, PngError>)
    requires |data| >= 8
    ensures r == ParseChunks(data[8..], START, maxPixels)
  {
    hide TakeChunk, ReadUInt32BE, ParseChunks;
    var offset, scan := 8, START;
    while offset < |data|
      invariant 8 <= offset <= |data| && ParseChunks(data[offset..], scan, maxPixels) ==
          ParseChunks(data[8..], START, maxPixels)
      decreases |data| - offset
    {
      ParseStep(data, offset, scan, maxPixels);
      if |data| - offset < 12 {
        return Err(TruncatedHeader);
      }
      var length := ReadUInt32BE(data[offset], data[offset + 1], data[offset + 2], data[offset + 3]);
      if length > maxPixels * 4 {
        return Err(ChunkTooLong);
      }
      scan := scan.(chunks := scan.chunks + 1);
      if scan.chunks > MAX_PNG_CHUNKS {
        return Err(TooManyChunks);
      }
      if length > |data| - (offset + 8) - 4 {
        return Err(BadLength);
      }
      var chunkEnd := offset + 8 + length;
      var step := TakeChunk(data[offset + 4], data[offset + 5], data[offset + 6], data[offset + 7],
          data[offset + 8..chunkEnd], scan, maxPixels);
      if step.Failed? {
        return Err(step.error);
      }
      scan := step.scan;
      if step.Done? {
        return Ok(scan);
      }
      offset := chunkEnd + 4;
    }
    ParseEnd(scan, maxPixels);
    assert data[offset..] == [];
    r := Err(if scan.header.None? then NoIhdr else NoIend);
  }

  lemma ParseEnd(s: Scan, maxPixels: nat)
    ensures ParseChunks([], s, maxPixels) == Err(if s.header.None? then NoIhdr else NoIend)
  {}

  lemma ParseStep(data: seq<Byte>, offset: nat, s: Scan, maxPixels: nat)
    requires offset < |data|
    ensures |data| - offset < 12 ==> ParseChunks(data[offset..], s, maxPixels) == Err(TruncatedHeader)
    ensures |data| - offset >= 12 ==>
              var length := ReadUInt32BE(data[offset], data[offset + 1], data[offset + 2], data[offset + 3]);
              ParseChunks(data[offset..], s, maxPixels) ==
              if length > maxPixels * 4 then Err(ChunkTooLong)
              else if s.chunks + 1 > MAX_PNG_CHUNKS then Err(TooManyChunks)
              else if length > |data| - offset - 12 then Err(BadLength)
              else
                var step := TakeChunk(data[offset + 4], data[offset + 5], data[offset + 6], data[offset + 7],
                                      data[offset + 8..offset + 8 + length], s.(chunks := s.chunks + 1), maxPixels);
                if step.Failed? then Err(step.error) else if step.Done? then Ok(step.scan)
                else ParseChunks(data[offset + 12 + length..], step.scan, maxPixels)
  {
    hide TakeChunk, ReadUInt32BE;
    var rest := data[offset..];
    if |rest| >= 12 {
      var length := ReadUInt32BE(data[offset], data[offset + 1], data[offset + 2], data[offset + 3]);
      assert rest[0] == data[offset] && rest[1] == data[offset + 1] && rest[2] == data[offset + 2]
          && rest[3] == data[offset + 3];
      if length <= |rest| - 12 {
        assert rest[8..8 + length] == data[offset + 8..offset + 8 + length]
            && rest[12 + length..] == data[offset + 12 + length..];
      }
    }
  }

  method CheckFilters(raw: seq<Byte>, rowLength: nat) returns (ok: bool)
    requires rowLength > 0
    ensures ok == FiltersOk(raw, rowLength)
  {
    var rowOffset := 0;
    assert raw[0..] == raw;
    while rowOffset < |raw|
      invariant 0 <= rowOffset && (rowOffset <= |raw| ==>
          FiltersOk(raw, rowLength) == FiltersOk(raw[rowOffset..], rowLength))
      invariant rowOffset > |raw| ==> FiltersOk(raw, rowLength)
      decreases |raw| - rowOffset
    {
      if raw[rowOffset] > 4 {
        return false;
      }
      if rowOffset + rowLength <= |raw| {
        assert raw[rowOffset..][rowLength..] == raw[rowOffset + rowLength..];
      }
      rowOffset := rowOffset + rowLength;
    }
    ok := true;
  }

  /** decodeScreenshotPngToRgba */
  method DecodeScreenshotPngToRgba(data: seq<Byte>, inflate: Inflate) returns (r: Result<Image, PngError>)
    ensures r == Decode(data, inflate)
  {
    hide InflatePng, Decoded;
    var png := InflatePngData(data, MAX_SCREENSHOT_PNG_PIXELS, inflate);
    if png.Err? {
      return Err(png.error);
    }
    InflatedSound(data, MAX_SCREENSHOT_PNG_PIXELS, inflate);
    var i := png.value;
    var raw := new Byte[|i.raw|](k requires 0 <= k < |i.raw| => i.raw[k]);
    assert raw[..] == i.raw;
    var rgba := ConvertScanlinesToRgba(raw, i.width, i.height, i.colorType, i.bpp);
    r := Ok(Image(i.width, i.height, rgba[..]));
  }

  /** isUniformPng says of every PNG what isUniformFrame says of the decoded image, and fails on the same data. */
  method IsUniformPng(data: seq<Byte>, inflate: Inflate) returns (r: Result<bool, PngError>)
    ensures r.Ok? <==> Decode(data, inflate).Ok?
    ensures r.Err? ==> r.error == Decode(data, inflate).error
    ensures r.Ok? ==> var image := Decode(data, inflate).value;
        r.value == Uniform(image.rgba, image.width, image.height)
  {
    hide InflatePng, Decoded, Uniform;
    var png := InflatePngData(data, MAX_SCREENSHOT_PNG_PIXELS, inflate);
    if png.Err? {
      return Err(png.error);
    }
    InflatedSound(data, MAX_SCREENSHOT_PNG_PIXELS, inflate);
    var i := png.value;
    var raw := new Byte[|i.raw|](k requires 0 <= k < |i.raw| => i.raw[k]);
    assert raw[..] == i.raw;
    var uniform := IsUniformRaw(raw, i.width, i.height, i.colorType, i.bpp);
    r := Ok(uniform);
  }

  // ---------- Writing ----------

  /** Length, type, data and a four-byte checksum, which decoding skips. */
  function Chunk(name: seq<Byte>, data: seq<Byte>, crc: seq<Byte> -> seq<Byte>): (c: seq<Byte>)
    requires |data| < 0x1_0000_0000
  {
    UInt32BE(|data|) + name + data + crc(name + data)
  }

  /** Each row after a zero filter byte. */
  function Filtered(rgba: seq<Byte>, stride: nat, height: nat): seq<Byte>
    requires |rgba| >= Times(height, stride)
  {
    if height == 0 then [] else [0] + rgba[..stride] + Filtered(rgba[stride..], stride, height - 1)
  }

  function HeaderData(width: nat, height: nat): seq<Byte>
    requires width < 0x1_0000_0000 && height < 0x1_0000_0000
  {
    UInt32BE(width) + UInt32BE(height) + [8, 6, 0, 0, 0]
  }

  /** The stream rgbaToPng writes around given compressed data. */
  function Container(width: nat, height: nat, compressed: seq<Byte>, crc: seq<Byte> -> seq<Byte>): seq<Byte>
    requires width < 0x1_0000_0000 && height < 0x1_0000_0000 && |compressed| < 0x1_0000_0000
  {
    SIGNATURE + Chunk(IHDR, HeaderData(width, height), crc) + Chunk(IDAT, compressed, crc) + Chunk(IEND, [], crc)
  }

  method FilterRows(rgba: seq<Byte>, stride: nat, height: nat) returns (filtered: array<Byte>)
    requires |rgba| >= Times(height, stride)
    ensures fresh(filtered) && filtered[..] == Filtered(rgba, stride, height)
  {
    hide Times, Filtered;
    filtered := new Byte[Times(height, stride + 1)];
    var from, to := 0, 0;
    ghost var done: seq<Byte> := [];
    assert rgba[0..] == rgba;
    for y := 0 to height
      invariant 0 <= from && 0 <= to <= filtered.Length && to + Times(height - y, stride + 1) == filtered.Length
      invariant from + Times(height - y, stride) <= |rgba| && filtered[..to] == done
      invariant done + Filtered(rgba[from..], stride, height - y) == Filtered(rgba, stride, height)
    {
      RowLeft(height - y, stride + 1, stride);
      FilteredStep(rgba[from..], stride, height - y);
      ghost var rest: seq<Byte> := Filtered(rgba[from + stride..], stride, height - y - 1);
      assert rgba[from..][..stride] == rgba[from..from + stride] && rgba[from..][stride..] == rgba[from + stride..];
      filtered[to] := 0;
      assert filtered[..to + 1] == done + [0];
      CopySeq(rgba[from..from + stride], filtered, to + 1);
      Regroup(done, [0], rgba[from..from + stride]);
      Regroup(done, [0] + rgba[from..from + stride], rest);
      done := done + ([0] + rgba[from..from + stride]);
      from, to := from + stride, to + stride + 1;
    }
    RowLeft(0, stride + 1, stride);
    FilteredNone(rgba[from..], stride);
    assert filtered[..to] == filtered[..];
  }

  method CopySeq(piece: seq<Byte>, target: array<Byte>, at: nat)
    requires at + |piece| <= target.Length
    modifies target
    ensures target[..at + |piece|] == old(target[..at]) + piece
  {
    for i := 0 to |piece|
      invariant target[..at + i] == old(target[..at]) + piece[..i]
    {
      target[at + i] := piece[i];
      assert piece[..i + 1] == piece[..i] + [piece[i]];
    }
    assert piece[..|piece|] == piece;
  }

  lemma FilteredStep(rgba: seq<Byte>, stride: nat, height: nat)
    requires |rgba| >= Times(height, stride) && height > 0
    ensures |rgba| >= stride && |rgba[stride..]| >= Times(height - 1, stride)
    ensures Filtered(rgba, stride, height) == [0] + rgba[..stride] + Filtered(rgba[stride..], stride, height - 1)
  {}

  lemma FilteredNone(rgba: seq<Byte>, stride: nat)
    ensures Times(0, stride) == 0 && Filtered(rgba, stride, 0) == []
  {}

  /** `OutOfRange` is the error of writing a side or a length that 32 bits cannot hold. */
  datatype EncodeError = BadSize | BufferTooSmall | OutOfRange

  /** The rows of the picture, deflated. */
  function Compressed(rgba: seq<Byte>, width: nat, height: nat, deflate: Deflate): seq<Byte>
    requires |rgba| >= Times(height, Times(width, 4))
  {
    deflate(Filtered(rgba, Times(width, 4), height))
  }

  predicate FitsIn32Bits(width: nat, height: nat, compressed: seq<Byte>) {
    width < 0x1_0000_0000 && height < 0x1_0000_0000 && |compressed| < 0x1_0000_0000
  }

  method RgbaToPng(rgba: seq<Byte>, width: int, height: int, deflate: Deflate, crc: seq<Byte> -> seq<Byte>)
    returns (r: Result<seq<Byte>, EncodeError>)
    ensures width <= 0 || height <= 0 <==> r == Err(BadSize)
    ensures width > 0 && height > 0 ==> (|rgba| < width * height * 4 <==> r == Err(BufferTooSmall))
    ensures width > 0 && height > 0 && |rgba| >= width * height * 4 ==>
              && |rgba| >= Times(height, Times(width, 4))
              && var compressed := Compressed(rgba, width, height, deflate);
                 r == if FitsIn32Bits(width, height, compressed) then Ok(Container(width, height, compressed, crc))
                     else Err(OutOfRange)
  {
    hide Times, Filtered, Container;
    if width <= 0 || height <= 0 {
      return Err(BadSize);
    }
    PixelBytes(width, height);
    if |rgba| < width * height * 4 {
      return Err(BufferTooSmall);
    }
    var filtered := FilterRows(rgba, Times(width, 4), height);
    if width >= 0x1_0000_0000 || height >= 0x1_0000_0000 {
      return Err(OutOfRange);
    }
    var compressed := deflate(filtered[..]);
    if |compressed| >= 0x1_0000_0000 {
      return Err(OutOfRange);
    }
    r := Ok(Container(width, height, compressed, crc));
  }

  // ---------- The round trip ----------

  lemma {:induction false} FilteredLength(rgba: seq<Byte>, stride: nat, height: nat)
    requires |rgba| >= Times(height, stride)
    ensures |Filtered(rgba, stride, height)| == Times(height, stride + 1)
  {
    if height > 0 {
      FilteredLength(rgba[stride..], stride, height - 1);
    }
  }

  lemma {:induction false} FilteredOk(rgba: seq<Byte>, stride: nat, height: nat)
    requires |rgba| >= Times(height, stride)
    ensures FiltersOk(Filtered(rgba, stride, height), stride + 1)
  {
    if height > 0 {
      var rest := Filtered(rgba[stride..], stride, height - 1);
      FilteredOk(rgba[stride..], stride, height - 1);
      assert ([0] + rgba[..stride] + rest)[stride + 1..] == rest;
    }
  }

  /** Decoding rows without a filter gives the pixels back. */
  lemma {:induction false} FilteredDecodes(rgba: seq<Byte>, prior: seq<Byte>, width: nat, height: nat)
    requires |prior| == Times(width, 4) && |rgba| >= Times(height, |prior|)
    ensures ImageRgba(6, Rows(Filtered(rgba, |prior|, height), prior, 4), 4) == rgba[..Times(height, |prior|)]
    decreases height
  {
    var stride := |prior|;
    if height == 0 {
      RowsEnd([], prior, 4);
    } else {
      hide Rows, UnfilterRow, ImageRgba, RowRgba, Filtered, Times;
      FilteredStep(rgba, stride, height);
      TimesOne(height, stride);
      var row: seq<Byte> := rgba[..stride];
      var after: seq<Byte> := rgba[stride..];
      var rest := Filtered(after, stride, height - 1);
      RowsOfPieces(0, row, rest, prior, 4);
      UnfilterNone(prior, row, 4);
      ImageStep(6, row, Rows(rest, row, 4), 4);
      RowOfRgba(row, width);
      FilteredDecodes(after, row, width, height - 1);
      Prefixes(rgba, stride, Times(height - 1, stride));
    }
  }

  lemma Prefixes(s: seq<Byte>, a: nat, b: nat)
    requires a + b <= |s|
    ensures s[..a + b] == s[..a] + s[a..][..b]
  {}

  // ---------- Parsing what was written ----------

  lemma ChunkParts(name: seq<Byte>, data: seq<Byte>, crc: seq<Byte> -> seq<Byte>, rest: seq<Byte>)
    requires |name| == 4 && |data| < 0x1_0000_0000 && |crc(name + data)| == 4
    ensures var all := Chunk(name, data, crc) + rest;
            && |all| == 12 + |data| + |rest| && ReadUInt32BE(all[0], all[1], all[2], all[3]) == |data|
            && all[4] == name[0] && all[5] == name[1] && all[6] == name[2] && all[7] == name[3]
            && all[8..8 + |data|] == data && all[12 + |data|..] == rest
  {
    ReadWritten(|data|);
    var size := UInt32BE(|data|);
    hide UInt32BE, ReadUInt32BE;
    var all: seq<Byte> := Chunk(name, data, crc) + rest;
    assert all == size + name + data + crc(name + data) + rest;
    assert all[0] == size[0] && all[1] == size[1] && all[2] == size[2] && all[3] == size[3];
  }

  /** One written chunk is read back as itself. */
  lemma ParseWritten(name: seq<Byte>, data: seq<Byte>, crc: seq<Byte> -> seq<Byte>, rest: seq<Byte>, s: Scan,
      maxPixels: nat)
    requires |name| == 4 && |data| < 0x1_0000_0000 && |crc(name + data)| == 4 && |data| <= maxPixels * 4
        && s.chunks + 1 <= MAX_PNG_CHUNKS
    ensures ParseChunks(Chunk(name, data, crc) + rest, s, maxPixels) ==
            var step := TakeChunk(name[0], name[1], name[2], name[3], data, s.(chunks := s.chunks + 1), maxPixels);
            if step.Failed? then Err(step.error) else if step.Done? then Ok(step.scan)
                else ParseChunks(rest, step.scan, maxPixels)
  {
    hide Chunk, TakeChunk, ReadUInt32BE;
    ChunkParts(name, data, crc, rest);
  }

  lemma HeaderParses(width: nat, height: nat)
    requires 0 < width <= MAX_PNG_DIMENSION && 0 < height <= MAX_PNG_DIMENSION
        && width * height <= MAX_SCREENSHOT_PNG_PIXELS
    ensures |HeaderData(width, height)| == 13
    ensures ParseHeader(HeaderData(width, height), MAX_SCREENSHOT_PNG_PIXELS) ==
            Ok(Header(width, height, 6, 4, ScanlineLength(width, height, 4)))
  {
    ReadWritten(width);
    ReadWritten(height);
    ScanlinesFit(width, height);
    var w, h := UInt32BE(width), UInt32BE(height);
    var d: seq<Byte> := HeaderData(width, height);
    hide UInt32BE, ReadUInt32BE, ScanlineLength;
    assert d == w + h + [8, 6, 0, 0, 0];
    assert d[0] == w[0] && d[1] == w[1] && d[2] == w[2] && d[3] == w[3];
    assert d[4] == h[0] && d[5] == h[1] && d[6] == h[2] && d[7] == h[3];
    assert d[8] == 8 && d[9] == 6 && d[10] == 0 && d[11] == 0 && d[12] == 0;
  }

  lemma ScanlinesFit(width: nat, height: nat)
    requires height <= MAX_PNG_DIMENSION && width * height <= MAX_SCREENSHOT_PNG_PIXELS
    ensures ScanlineLength(width, height, 4) <= MAX_SCREENSHOT_PNG_PIXELS * 4 + MAX_PNG_DIMENSION
  {
    assert height * (width * 4 + 1) == (width * height) * 4 + height;
  }

  lemma FourPieces(a: seq<Byte>, b: seq<Byte>, c: seq<Byte>, d: seq<Byte>)
    ensures var all := a + b + c + d; all[..|a|] == a && all[|a|..] == b + (c + (d + []))
  {}

  function HeaderOnly(h: Header): Scan {
    Scan(Some(h), [], 0, 1)
  }

  lemma HeaderChunkParses(header: seq<Byte>, h: Header, crc: seq<Byte> -> seq<Byte>, rest: seq<Byte>, maxPixels: nat)
    requires |header| == 13 && ParseHeader(header, maxPixels) == Ok(h) && maxPixels >= 4 && |crc(IHDR + header)| == 4
    ensures ParseChunks(Chunk(IHDR, header, crc) + rest, START, maxPixels) ==
        ParseChunks(rest, HeaderOnly(h), maxPixels)
  {
    hide Chunk, ParseHeader, ParseChunks;
    TakesHeader(header, h, maxPixels);
    hide TakeChunk;
    ParseWritten(IHDR, header, crc, rest, START, maxPixels);
  }

  lemma DataChunkParses(h: Header, compressed: seq<Byte>, crc: seq<Byte> -> seq<Byte>, rest: seq<Byte>, maxPixels: nat)
    requires |compressed| <= maxPixels * 4 && |compressed| < 0x1_0000_0000 && |crc(IDAT + compressed)| == 4
    ensures ParseChunks(Chunk(IDAT, compressed, crc) + rest, HeaderOnly(h), maxPixels) ==
            ParseChunks(rest, Scan(Some(h), compressed, 1, 2), maxPixels)
  {
    hide Chunk, ParseChunks;
    TakesData(compressed, HeaderOnly(h), maxPixels);
    hide TakeChunk;
    ParseWritten(IDAT, compressed, crc, rest, HeaderOnly(h), maxPixels);
    assert [] + compressed == compressed;
  }

  lemma EndChunkParses(s: Scan, crc: seq<Byte> -> seq<Byte>, rest: seq<Byte>, maxPixels: nat)
    requires s.header.Some? && s.chunks == 2 && |crc(IEND + [])| == 4
    ensures ParseChunks(Chunk(IEND, [], crc) + rest, s, maxPixels) == Ok(s.(chunks := 3))
  {
    hide Chunk, ParseChunks;
    TakesEnd(s, maxPixels);
    hide TakeChunk;
    ParseWritten(IEND, [], crc, rest, s, maxPixels);
  }

  lemma ChunksParse(header: seq<Byte>, h: Header, compressed: seq<Byte>, crc: seq<Byte> -> seq<Byte>, maxPixels: nat)
    requires |header| == 13 && ParseHeader(header, maxPixels) == Ok(h) && maxPixels >= 4
    requires |compressed| <= maxPixels * 4 && |compressed| < 0x1_0000_0000 && forall x :: |crc(x)| == 4
    ensures ParseChunks(Chunk(IHDR, header, crc) + (Chunk(IDAT, compressed, crc) + (Chunk(IEND, [], crc) + [])),
        START, maxPixels) ==
            Ok(Scan(Some(h), compressed, 1, 3))
  {
    hide Chunk, ParseHeader, TakeChunk, ParseChunks, HeaderOnly;
    var c2: seq<Byte> := Chunk(IDAT, compressed, crc);
    var c3: seq<Byte> := Chunk(IEND, [], crc);
    HeaderChunkParses(header, h, crc, c2 + (c3 + []), maxPixels);
    DataChunkParses(h, compressed, crc, c3 + [], maxPixels);
    EndChunkParses(Scan(Some(h), compressed, 1, 2), crc, [], maxPixels);
  }

  lemma {:induction false} ContainerParses(width: nat, height: nat, compressed: seq<Byte>, crc: seq<Byte> -> seq<Byte>)
    requires 0 < width <= MAX_PNG_DIMENSION && 0 < height <= MAX_PNG_DIMENSION
        && width * height <= MAX_SCREENSHOT_PNG_PIXELS
    requires |compressed| <= MAX_SCREENSHOT_PNG_PIXELS * 4 && forall x :: |crc(x)| == 4
    ensures var data := Container(width, height, compressed, crc);
            && |data| >= 8 && data[..8] == SIGNATURE
            && ParseChunks(data[8..], START, MAX_SCREENSHOT_PNG_PIXELS) ==
               Ok(Scan(Some(Header(width, height, 6, 4, ScanlineLength(width, height, 4))), compressed, 1, 3))
  {
    hide Chunk, HeaderData, ParseHeader, ScanlineLength, TakeChunk, ParseChunks;
    HeaderParses(width, height);
    ChunksParse(HeaderData(width, height), Header(width, height, 6, 4, ScanlineLength(width, height, 4)), compressed,
        crc, MAX_SCREENSHOT_PNG_PIXELS);
    FourPieces(SIGNATURE, Chunk(IHDR, HeaderData(width, height), crc), Chunk(IDAT, compressed, crc),
        Chunk(IEND, [], crc));
  }

  lemma TakesHeader(data: seq<Byte>, h: Header, maxPixels: nat)
    requires |data| == 13 && ParseHeader(data, maxPixels) == Ok(h)
    ensures TakeChunk(73, 72, 68, 82, data, START.(chunks := 1), maxPixels) == Next(HeaderOnly(h))
  {
    hide ParseHeader;
  }

  lemma TakesData(data: seq<Byte>, s: Scan, maxPixels: nat)
    requires s.header.Some? && |data| <= maxPixels * 4 && s.idat == [] && s.idatChunks == 0
    ensures TakeChunk(73, 68, 65, 84, data, s.(chunks := 2), maxPixels) == Next(Scan(s.header, [] + data, 1, 2))
  {}

  lemma TakesEnd(s: Scan, maxPixels: nat)
    requires s.header.Some?
    ensures TakeChunk(73, 69, 78, 68, [], s.(chunks := 3), maxPixels) == Done(s.(chunks := 3))
  {}

  /** Inflating undoes deflating, whenever the result may be that long. */
  ghost predicate Inverse(deflate: Deflate, inflate: Inflate) {
    forall x, limit :: |x| <= limit ==> inflate(deflate(x), limit) == Some(x)
  }

  /** A picture written by rgbaToPng and decoded again is itself, for all pixels and every size within the limits. */
  lemma {:induction false} ScreenshotRoundTrip(rgba: seq<Byte>, width: nat, height: nat, deflate: Deflate,
      inflate: Inflate, crc: seq<Byte> -> seq<Byte>)
    requires 0 < width <= MAX_PNG_DIMENSION && 0 < height <= MAX_PNG_DIMENSION
        && width * height <= MAX_SCREENSHOT_PNG_PIXELS
    requires |rgba| >= Times(height, Times(width, 4)) && Inverse(deflate, inflate) && (forall x :: |crc(x)| == 4)
    requires var compressed := Compressed(rgba, width, height, deflate);
             && |compressed| < 0x1_0000_0000
             && |Container(width, height, compressed, crc)| <= MAX_SCREENSHOT_PNG_PIXELS * 4
    ensures var png := Container(width, height, Compressed(rgba, width, height, deflate), crc);
            |rgba| >= width * height * 4 && Decode(png, inflate) == Ok(Image(width, height, rgba[..width * height * 4]))
  {
    hide Times, Filtered, Container, ScanlineLength, ParseChunks, FiltersOk, Rows, ImageRgba, InflatePng;
    var stride := Times(width, 4);
    var filtered: seq<Byte> := Filtered(rgba, stride, height);
    var compressed: seq<Byte> := deflate(filtered);
    var h := Header(width, height, 6, 4, ScanlineLength(width, height, 4));
    CompressedFits(width, height, compressed, crc);
    ContainerParses(width, height, compressed, crc);
    FilteredLength(rgba, stride, height);
    LengthsAgree(width, height);
    FilteredOk(rgba, stride, height);
    TimesIs(width, 4);
    InflatedFrom(Container(width, height, compressed, crc), inflate, h, compressed, filtered);
    FilteredDecodes(rgba, Zeros(stride), width, height);
    PixelBytes(width, height);
  }

  lemma InflatedFrom(data: seq<Byte>, inflate: Inflate, h: Header, idat: seq<Byte>, filtered: seq<Byte>)
    requires 8 <= |data| <= MAX_SCREENSHOT_PNG_PIXELS * 4 && data[..8] == SIGNATURE
    requires ParseChunks(data[8..], START, MAX_SCREENSHOT_PNG_PIXELS) == Ok(Scan(Some(h), idat, 1, 3))
    requires inflate(idat, h.expected) == Some(filtered) && |filtered| == h.expected
        && FiltersOk(filtered, RowLength(h.width, h.bpp))
    ensures InflatePng(data, MAX_SCREENSHOT_PNG_PIXELS, inflate) ==
        Ok(Inflated(h.width, h.height, h.colorType, h.bpp, filtered))
  {
    hide ParseChunks, FiltersOk, RowLength;
  }

  lemma LengthsAgree(width: nat, height: nat)
    ensures Times(height, Times(width, 4) + 1) == ScanlineLength(width, height, 4)
  {
    TimesIs(width, 4);
    TimesIs(height, Times(width, 4) + 1);
  }

  lemma CompressedFits(width: nat, height: nat, compressed: seq<Byte>, crc: seq<Byte> -> seq<Byte>)
    requires width < 0x1_0000_0000 && height < 0x1_0000_0000 && |compressed| < 0x1_0000_0000
    ensures |compressed| <= |Container(width, height, compressed, crc)|
  {
    hide UInt32BE;
  }

  predicate SidesFit(width: nat, height: nat) {
    width <= MAX_PNG_DIMENSION && height <= MAX_PNG_DIMENSION && width * height <= MAX_SCREENSHOT_PNG_PIXELS
  }

  /** What the decoder takes: no larger sides, no more pixels and no more bytes of file. */
  predicate WithinLimits(width: nat, height: nat, png: seq<Byte>) {
    SidesFit(width, height) && |png| <= MAX_SCREENSHOT_PNG_PIXELS * 4
  }

  lemma HeaderRefused(width: nat, height: nat)
    requires width < 0x1_0000_0000 && height < 0x1_0000_0000 && !SidesFit(width, height)
    ensures |HeaderData(width, height)| == 13 && ParseHeader(HeaderData(width, height), MAX_SCREENSHOT_PNG_PIXELS).Err?
  {
    ReadWritten(width);
    ReadWritten(height);
    var w, h := UInt32BE(width), UInt32BE(height);
    var d: seq<Byte> := HeaderData(width, height);
    hide UInt32BE, ReadUInt32BE, ScanlineLength;
    assert d == w + h + [8, 6, 0, 0, 0];
    assert d[0] == w[0] && d[1] == w[1] && d[2] == w[2] && d[3] == w[3];
    assert d[4] == h[0] && d[5] == h[1] && d[6] == h[2] && d[7] == h[3];
  }

  lemma HeaderChunkRefused(header: seq<Byte>, crc: seq<Byte> -> seq<Byte>, rest: seq<Byte>, maxPixels: nat)
    requires |header| == 13 && ParseHeader(header, maxPixels).Err? && maxPixels >= 4 && |crc(IHDR + header)| == 4
    ensures ParseChunks(Chunk(IHDR, header, crc) + rest, START, maxPixels).Err?
  {
    hide Chunk, ParseHeader, ParseChunks;
    assert TakeChunk(73, 72, 68, 82, header, START.(chunks := 1), maxPixels).Failed?;
    hide TakeChunk;
    ParseWritten(IHDR, header, crc, rest, START, maxPixels);
  }

  /** A picture beyond the limits is refused by the decoder. */
  lemma {:induction false} OutsideIsRefused(width: nat, height: nat, compressed: seq<Byte>, inflate: Inflate,
      crc: seq<Byte> -> seq<Byte>)
    requires FitsIn32Bits(width, height, compressed) && forall x :: |crc(x)| == 4
    requires !WithinLimits(width, height, Container(width, height, compressed, crc))
    ensures Decode(Container(width, height, compressed, crc), inflate).Err?
  {
    var png := Container(width, height, compressed, crc);
    hide Chunk, HeaderData, ParseHeader, ParseChunks, FiltersOk, ScanlineLength;
    if |png| <= MAX_SCREENSHOT_PNG_PIXELS * 4 {
      HeaderRefused(width, height);
      var c2, c3 := Chunk(IDAT, compressed, crc), Chunk(IEND, [], crc);
      FourPieces(SIGNATURE, Chunk(IHDR, HeaderData(width, height), crc), c2, c3);
      HeaderChunkRefused(HeaderData(width, height), crc, c2 + (c3 + []), MAX_SCREENSHOT_PNG_PIXELS);
    }
  }

  /** What rgbaToPng writes, decodeScreenshotPngToRgba turns back into the picture when it is within the limits, and
      refuses when not. */
  method WriteThenDecode(rgba: seq<Byte>, width: int, height: int, deflate: Deflate, inflate: Inflate,
      crc: seq<Byte> -> seq<Byte>)
    returns (png: Result<seq<Byte>, EncodeError>, back: Option<Result<Image, PngError>>)
    requires Inverse(deflate, inflate) && forall x :: |crc(x)| == 4
    ensures png.Err? <==> back.None?
    ensures png.Ok? ==> width > 0 && height > 0 && |rgba| >= width * height * 4
    ensures png.Ok? && WithinLimits(width, height, png.value) ==>
        back == Some(Ok(Image(width, height, rgba[..width * height * 4])))
    ensures png.Ok? && !WithinLimits(width, height, png.value) ==> back.value.Err?
  {
    hide Times, Filtered, Compressed, Container, Decode, Inverse, WithinLimits, FitsIn32Bits;
    png := RgbaToPng(rgba, width, height, deflate, crc);
    if png.Err? {
      return png, None;
    }
    var image := DecodeScreenshotPngToRgba(png.value, inflate);
    WrittenReads(rgba, width, height, png.value, deflate, inflate, crc);
    back := Some(image);
  }

  lemma WrittenReads(rgba: seq<Byte>, width: nat, height: nat, png: seq<Byte>, deflate: Deflate, inflate: Inflate,
      crc: seq<Byte> -> seq<Byte>)
    requires width > 0 && height > 0 && |rgba| >= Times(height, Times(width, 4)) && |rgba| >= width * height * 4
    requires Inverse(deflate, inflate) && forall x :: |crc(x)| == 4
    requires FitsIn32Bits(width, height, Compressed(rgba, width, height, deflate))
    requires png == Container(width, height, Compressed(rgba, width, height, deflate), crc)
    ensures if WithinLimits(width, height, png)
        then Decode(png, inflate) == Ok(Image(width, height, rgba[..width * height * 4]))
            else Decode(png, inflate).Err?
  {
    hide Times, Filtered, Compressed, Container, Decode, Inverse;
    if WithinLimits(width, height, png) {
      ScreenshotRoundTrip(rgba, width, height, deflate, inflate, crc);
    } else {
      OutsideIsRefused(width, height, Compressed(rgba, width, height, deflate), inflate, crc);
    }
  }
}
