/** The chunked model file that holds the built-in skills: its byte reader, its chunks, and the list of chunks up to
    the end mark. */
module SkillModel {
  import opened Common
  import opened Lz4

  const MAGIC: Bytes := [0x3c, 0x72, 0x6f, 0x62, 0x6c, 0x6f, 0x78, 0x21, 0x89, 0xff, 0x0d, 0x0a, 0x1a, 0x0a]
  const HEADER_BYTES := 32
  const CHUNK_HEADER_BYTES := 16
  const ZSTD_MAGIC: Bytes := [0x28, 0xb5, 0x2f, 0xfd]
  const END: Bytes := [0x45, 0x4e, 0x44, 0x00]

  datatype Failure = NoHeader | TruncatedHeader | OutOfBytes | BadZstandard | BadLz4(error: Error) | NoEnd

  /** The end mark has no content. */
  datatype Chunk = Chunk(name: Bytes, content: Option<Bytes>)

  /** The Zstandard decompressor, which may throw. */
  type Zstandard = Bytes -> Option<Bytes>

  // ---------- Numbers ----------

  function UInt32LE(n: nat): (b: Bytes)
    ensures |b| == 4
  {
    [n % 256, n / 256 % 256, n / 0x1_0000 % 256, n / 0x100_0000 % 256]
  }

  function Word(a: int, b: int, c: int, d: int): int {
    a + b * 256 + c * 0x1_0000 + d * 0x100_0000
  }

  function ReadUInt32LE(b: Bytes): (n: nat)
    requires |b| == 4
  {
    Word(b[0], b[1], b[2], b[3])
  }

  lemma ReadWritten(n: nat)
    requires n < 0x1_0000_0000
    ensures ReadUInt32LE(UInt32LE(n)) == n
  {
    assert n / 256 == n / 0x1_0000 * 256 + n / 256 % 256;
    assert n / 0x1_0000 == n / 0x100_0000 * 256 + n / 0x1_0000 % 256;
  }

  // ---------- What the reader makes of a file ----------

  predicate HasMagic(compressed: Bytes) {
    |compressed| >= 4 && compressed[..4] == ZSTD_MAGIC
  }

  function Decompress(compressed: Bytes, n: nat, zstd: Zstandard): Result<Bytes, Failure> {
    if HasMagic(compressed) then
      var d := zstd(compressed);
      if d.None? || |d.value| != n then Err(BadZstandard) else Ok(d.value)
    else
      var d := Decode(compressed, [], n);
      if d.Ok? then Ok(d.value) else Err(BadLz4(d.error))
  }

  /** The chunk at the front of the bytes, and what follows it. */
  function NextChunk(rest: Bytes, zstd: Zstandard): Result<(Chunk, Bytes), Failure> {
    if |rest| < CHUNK_HEADER_BYTES then Err(TruncatedHeader) else
    Body(rest[..4], ReadUInt32LE(rest[4..8]), ReadUInt32LE(rest[8..12]), rest[16..], zstd)
  }

  function Body(name: Bytes, compressedLength: nat, length: nat, body: Bytes, zstd: Zstandard): Result<(Chunk, Bytes),
      Failure> {
    if name == END then Ok((Chunk(END, None), body))
    else if compressedLength == 0 then
      if |body| < length then Err(OutOfBytes) else Ok((Chunk(name, Some(body[..length])), body[length..]))
    else if |body| < compressedLength then Err(OutOfBytes) else
    var content := Decompress(body[..compressedLength], length, zstd);
    if content.Ok? then Ok((Chunk(name, Some(content.value)), body[compressedLength..])) else Err(content.error)
  }

  lemma NextShortens(rest: Bytes, zstd: Zstandard)
    ensures NextChunk(rest, zstd).Ok? ==> |NextChunk(rest, zstd).value.1| < |rest|
  {
    hide Decompress;
  }

  /** The chunks up to the end mark. */
  function Chunks(rest: Bytes, zstd: Zstandard): Result<seq<Chunk>, Failure>
    decreases |rest|
  {
    if rest == [] then Err(NoEnd) else
    var next := NextChunk(rest, zstd);
    if next.Err? then Err(next.error)
    else if next.value.0.content.None? then Ok([]) else
    NextShortens(rest, zstd);
    var more := Chunks(next.value.1, zstd);
    if more.Err? then more else Ok([next.value.0] + more.value)
  }

  function Model(buffer: Bytes, zstd: Zstandard): Result<seq<Chunk>, Failure> {
    if |buffer| < HEADER_BYTES || buffer[..|MAGIC|] != MAGIC then Err(NoHeader)
        else Chunks(buffer[HEADER_BYTES..], zstd)
  }

  // ---------- Writing ----------

  /** A chunk as a writer may pack it; not compressed when `compressed` is empty. */
  datatype Packed = Packed(name: Bytes, content: Bytes, compressed: Bytes, reserved: Bytes)

  ghost predicate IsBlockOf(compressed: Bytes, content: Bytes) {
    exists b :: ValidBlock([], b) && Encode([], b) == compressed && Lz4.Expand([], b) == content
  }

  predicate Fits(p: Packed) {
    && |p.name| == 4 && p.name != [0x45, 0x4e, 0x44, 0x00] && |p.reserved| == 4
    && |p.content| < 0x1_0000_0000 && |p.compressed| < 0x1_0000_0000
  }

  /** Any of the three packings, each by any compressor. */
  ghost predicate Faithful(p: Packed, zstd: Zstandard) {
    && Fits(p)
    && (p.compressed == [] || IsBlockOf(p.compressed, p.content)
        || (IsZstandard(p.compressed) && zstd(p.compressed) == Some(p.content)))
  }

  /** The magic number of a Zstandard frame (section 3.1.1 of RFC 8878). */
  predicate IsZstandard(compressed: Bytes) {
    && |compressed| >= 4 && compressed[0] == 0x28 && compressed[1] == 0xb5 && compressed[2] == 0x2f
    && compressed[3] == 0xfd
  }

  lemma ZstandardHasMagic(compressed: Bytes)
    ensures IsZstandard(compressed) <==> HasMagic(compressed)
  {
    if |compressed| >= 4 {
      assert compressed[..4] == [compressed[0], compressed[1], compressed[2], compressed[3]];
    }
  }

  function Payload(p: Packed): Bytes {
    if p.compressed == [] then p.content else p.compressed
  }

  function Print(p: Packed): (b: Bytes)
    ensures |p.name| == 4 && |p.reserved| == 4 ==> |b| == 16 + |Payload(p)|
  {
    p.name + UInt32LE(|p.compressed|) + UInt32LE(|p.content|) + p.reserved + Payload(p)
  }

  function PrintAll(ps: seq<Packed>, end: Bytes): Bytes {
    if ps == [] then end else Print(ps[0]) + PrintAll(ps[1..], end)
  }

  function Unpacked(ps: seq<Packed>): seq<Chunk> {
    if ps == [] then [] else [Chunk(ps[0].name, Some(ps[0].content))] + Unpacked(ps[1..])
  }

  /** An end mark is its name and any twelve bytes. */
  predicate IsEnd(end: Bytes) {
    |end| == 16 && end[..4] == [0x45, 0x4e, 0x44, 0x00]
  }

  // ---------- Every packing reads back ----------

  /** No LZ4 block starts with the Zstandard magic: its second sequence would reach back at least 253 bytes into two. */
  lemma {:induction false} MagicIsNoBlock(compressed: Bytes, n: nat)
    requires HasMagic(compressed)
    ensures Decode(compressed, [], n).Err?
  {
    assert compressed[..4][0] == 0x28 && compressed[..4][3] == 0xfd;
    assert compressed[0] == 0x28 && compressed[3] == 0xfd;
    var rest := compressed[1..];
    assert ReadLength(2, rest) == Some((2, rest));
    assert rest[2..][0] == 0xfd;
    assert |[] + rest[..2]| == 2;
    hide CopyMatch;
  }

  lemma PackedDecompresses(p: Packed, zstd: Zstandard)
    requires Faithful(p, zstd) && p.compressed != []
    ensures Decompress(p.compressed, |p.content|, zstd) == Ok(p.content)
  {
    hide Decode;
    ZstandardHasMagic(p.compressed);
    if IsBlockOf(p.compressed, p.content) {
      var b :| ValidBlock([], b) && Encode([], b) == p.compressed && Lz4.Expand([], b) == p.content;
      BlockDecodes(b);
      if HasMagic(p.compressed) {
        MagicIsNoBlock(p.compressed, |p.content|);
      }
    }
  }

  lemma PrintParts(p: Packed, tail: Bytes)
    requires Fits(p)
    ensures var b := Print(p) + tail;
            && |b| >= 16 && b[..4] == p.name && b[4..8] == UInt32LE(|p.compressed|) && b[8..12] == UInt32LE(|p.content|)
            && b[16..] == Payload(p) + tail
  {
    hide UInt32LE, Payload;
  }

  lemma PrintedReads(p: Packed, tail: Bytes, zstd: Zstandard)
    requires Faithful(p, zstd)
    ensures NextChunk(Print(p) + tail, zstd) == Ok((Chunk(p.name, Some(p.content)), tail))
  {
    PrintParts(p, tail);
    ReadWritten(|p.compressed|);
    ReadWritten(|p.content|);
    hide UInt32LE, ReadUInt32LE, Decompress, IsBlockOf, HasMagic, Print;
    if p.compressed != [] {
      PackedDecompresses(p, zstd);
      assert (p.compressed + tail)[..|p.compressed|] == p.compressed && (p.compressed + tail)[|p.compressed|..] == tail;
    } else {
      assert (p.content + tail)[..|p.content|] == p.content && (p.content + tail)[|p.content|..] == tail;
    }
  }

  /** However each chunk was packed, and whatever follows the end mark, the chunks read are the chunks written. */
  lemma {:induction false} ModelReads(ps: seq<Packed>, end: Bytes, tail: Bytes, zstd: Zstandard)
    requires IsEnd(end) && forall p :: p in ps ==> Faithful(p, zstd)
    ensures Chunks(PrintAll(ps, end) + tail, zstd) == Ok(Unpacked(ps))
  {
    hide Faithful, Print;
    if ps == [] {
      EndReads(end, tail, zstd);
    } else {
      assert ps[0] in ps && forall p :: p in ps[1..] ==> p in ps;
      var more := PrintAll(ps[1..], end) + tail;
      PrintedReads(ps[0], more, zstd);
      ModelReads(ps[1..], end, tail, zstd);
      Regroup(Print(ps[0]), PrintAll(ps[1..], end), tail);
      hide NextChunk;
    }
  }

  lemma EndReads(end: Bytes, tail: Bytes, zstd: Zstandard)
    requires IsEnd(end)
    ensures Chunks(end + tail, zstd) == Ok([])
  {
    assert (end + tail)[..4] == END;
  }

  // ---------- A cut file is refused ----------

  lemma CutChunk(p: Packed, cut: nat, zstd: Zstandard)
    requires Fits(p) && cut < |Print(p)|
    ensures NextChunk(Print(p)[..cut], zstd).Err?
  {
    PrintParts(p, []);
    ReadWritten(|p.compressed|);
    ReadWritten(|p.content|);
    var b := Print(p);
    assert b + [] == b;
    if cut >= 16 {
      assert b[..cut][..4] == b[..4] && b[..cut][4..8] == b[4..8] && b[..cut][8..12] == b[8..12];
      assert |b[..cut][16..]| < |Payload(p)|;
    }
    hide UInt32LE, ReadUInt32LE, Decompress, Print;
  }

  lemma ChunksStep(rest: Bytes, zstd: Zstandard)
    ensures NextChunk(rest, zstd).Err? ==> Chunks(rest, zstd).Err?
    ensures var next := NextChunk(rest, zstd);
            next.Ok? && next.value.0.content.Some? ==> (Chunks(rest, zstd).Err? <==> Chunks(next.value.1, zstd).Err?)
  {
    NextShortens(rest, zstd);
    hide Body;
  }

  lemma CutInto(front: Bytes, back: Bytes, cut: nat)
    requires cut <= |front + back|
    ensures cut < |front| ==> (front + back)[..cut] == front[..cut]
    ensures cut >= |front| ==> (front + back)[..cut] == front + back[..cut - |front|]
  {}

  /** A file cut anywhere before its end is refused, never read as a shorter model. */
  lemma {:induction false} CutIsRefused(ps: seq<Packed>, end: Bytes, cut: nat, zstd: Zstandard)
    requires IsEnd(end) && (forall p :: p in ps ==> Faithful(p, zstd)) && cut < |PrintAll(ps, end)|
    ensures Chunks(PrintAll(ps, end)[..cut], zstd).Err?
  {
    hide Chunks, NextChunk, Print, IsBlockOf, HasMagic;
    ChunksStep(PrintAll(ps, end)[..cut], zstd);
    if ps == [] {
      assert PrintAll(ps, end) == end;
      TooShort(end[..cut], zstd);
    } else {
      assert ps[0] in ps && forall p :: p in ps[1..] ==> p in ps;
      var front, back := Print(ps[0]), PrintAll(ps[1..], end);
      assert PrintAll(ps, end) == front + back;
      CutInto(front, back, cut);
      if cut < |front| {
        CutChunk(ps[0], cut, zstd);
      } else {
        PrintedReads(ps[0], back[..cut - |front|], zstd);
        CutIsRefused(ps[1..], end, cut - |front|, zstd);
      }
    }
  }

  lemma TooShort(rest: Bytes, zstd: Zstandard)
    requires |rest| < 16
    ensures NextChunk(rest, zstd).Err?
  {}

  // ---------- Nothing else is accepted ----------

  lemma Digits(a: int, b: int, c: int, d: int)
    requires 0 <= a < 256 && 0 <= b < 256 && 0 <= c < 256 && 0 <= d < 256
    ensures var n := Word(a, b, c, d);
            && 0 <= n < 0x1_0000_0000 && n % 256 == a && n / 256 % 256 == b && n / 0x1_0000 % 256 == c
                && n / 0x100_0000 % 256 == d
  {
    var n := Word(a, b, c, d);
    assert n / 256 == b + c * 256 + d * 0x1_0000;
    assert n / 0x1_0000 == c + d * 256;
    assert n / 0x100_0000 == d;
  }

  lemma WrittenRead(b: Bytes)
    requires |b| == 4
    ensures ReadUInt32LE(b) < 0x1_0000_0000 && UInt32LE(ReadUInt32LE(b)) == b
  {
    Digits(b[0], b[1], b[2], b[3]);
    hide Word;
    assert b == [b[0], b[1], b[2], b[3]];
  }

  lemma DecompressedIsPacked(compressed: Bytes, n: nat, zstd: Zstandard)
    ensures var d := Decompress(compressed, n, zstd);
            d.Ok? ==>
              && |d.value| == n
              && (IsBlockOf(compressed, d.value) || (IsZstandard(compressed) && zstd(compressed) == Some(d.value)))
  {
    ZstandardHasMagic(compressed);
    AcceptsExactlyBlocks(compressed, n);
    hide Decode;
    if !HasMagic(compressed) && Decode(compressed, [], n).Ok? {
      var b :| ValidBlock([], b) && Encode([], b) == compressed && |Lz4.Expand([], b)| == n;
      assert IsBlockOf(compressed, Lz4.Expand([], b));
    }
  }

  lemma BodyIsPacked(name: Bytes, c: nat, n: nat, body: Bytes, reserved: Bytes, zstd: Zstandard) returns (p: Packed)
    requires |name| == 4 && |reserved| == 4 && c < 0x1_0000_0000 && n < 0x1_0000_0000
    requires Body(name, c, n, body, zstd).Ok? && Body(name, c, n, body, zstd).value.0.content.Some?
    ensures Faithful(p, zstd) && p.name == name && p.reserved == reserved && |p.compressed| == c && |p.content| == n
    ensures var (chunk, tail) := Body(name, c, n, body, zstd).value;
            chunk == Chunk(name, Some(p.content)) && body == Payload(p) + tail
  {
    p := Packed(name, Body(name, c, n, body, zstd).value.0.content.value, body[..c], reserved);
    hide Decompress, IsBlockOf, HasMagic;
    if c != 0 {
      DecompressedIsPacked(body[..c], n, zstd);
    }
  }

  lemma ChunkIsPrinted(rest: Bytes, zstd: Zstandard) returns (p: Packed)
    requires NextChunk(rest, zstd).Ok? && NextChunk(rest, zstd).value.0.content.Some?
    ensures Faithful(p, zstd)
    ensures NextChunk(rest, zstd).value.0 == Chunk(p.name, Some(p.content))
        && rest == Print(p) + NextChunk(rest, zstd).value.1
  {
    hide Body, UInt32LE, ReadUInt32LE, Faithful, Payload;
    WrittenRead(rest[4..8]);
    WrittenRead(rest[8..12]);
    p := BodyIsPacked(rest[..4], ReadUInt32LE(rest[4..8]), ReadUInt32LE(rest[8..12]), rest[16..], rest[12..16], zstd);
    FiveParts(rest);
    Regroup(rest[..4] + rest[4..8] + rest[8..12] + rest[12..16], Payload(p), NextChunk(rest, zstd).value.1);
  }

  lemma FiveParts(rest: Bytes)
    requires |rest| >= 16
    ensures rest == rest[..4] + rest[4..8] + rest[8..12] + rest[12..16] + rest[16..]
  {}

  /** What is accepted is a list of well packed chunks, an end mark and whatever follows. */
  lemma {:induction false} AcceptedIsPrinted(rest: Bytes, zstd: Zstandard)
      returns (ps: seq<Packed>, end: Bytes, tail: Bytes)
    requires Chunks(rest, zstd).Ok?
    ensures IsEnd(end) && (forall p :: p in ps ==> Faithful(p, zstd)) && rest == PrintAll(ps, end) + tail
    ensures Chunks(rest, zstd) == Ok(Unpacked(ps))
    decreases |rest|
  {
    var next := NextChunk(rest, zstd);
    if next.value.0.content.None? {
      ps, end, tail := [], rest[..16], rest[16..];
    } else {
      hide Faithful, Body, Print;
      NextShortens(rest, zstd);
      var p := ChunkIsPrinted(rest, zstd);
      hide NextChunk;
      ps, end, tail := AcceptedIsPrinted(next.value.1, zstd);
      Regroup(Print(p), PrintAll(ps, end), tail);
      ps := [p] + ps;
      assert ps[1..] == ps[1..] && ps[0] == p;
    }
  }

  // ---------- The whole file ----------

  /** Thirty-two bytes: the fourteen of the signature, then version, counts and reserved bytes, which do not matter. */
  predicate IsHeader(header: Bytes) {
    && |header| == 32
    && header[..14] == [0x3c, 0x72, 0x6f, 0x62, 0x6c, 0x6f, 0x78, 0x21, 0x89, 0xff, 0x0d, 0x0a, 0x1a, 0x0a]
  }

  lemma HeaderParts(header: Bytes, rest: Bytes, zstd: Zstandard)
    requires IsHeader(header)
    ensures Model(header + rest, zstd) == Chunks(rest, zstd)
  {
    hide Chunks;
    assert (header + rest)[..14] == header[..14] && (header + rest)[32..] == rest;
  }

  /** A file is a header, chunks, an end mark, and whatever follows. */
  ghost predicate IsModelFile(buffer: Bytes, header: Bytes, ps: seq<Packed>, end: Bytes, tail: Bytes, zstd: Zstandard) {
    && IsHeader(header) && IsEnd(end) && (forall p :: p in ps ==> Faithful(p, zstd))
    && buffer == header + (PrintAll(ps, end) + tail)
  }

  /** What is accepted are exactly such files, and what is read are the chunks that were packed. */
  lemma {:induction false} ReadsExactlyModels(buffer: Bytes, zstd: Zstandard)
    ensures Model(buffer, zstd).Ok? <==>
              exists header, ps, end, tail :: IsModelFile(buffer, header, ps, end, tail, zstd)
    ensures forall header, ps, end, tail :: IsModelFile(buffer, header, ps, end, tail, zstd) ==>
              Model(buffer, zstd) == Ok(Unpacked(ps))
  {
    hide Chunks, Faithful;
    if Model(buffer, zstd).Ok? {
      var ps, end, tail := AcceptedIsPrinted(buffer[32..], zstd);
      assert buffer[..32][..14] == buffer[..14];
      assert buffer == buffer[..32] + buffer[32..];
      assert IsModelFile(buffer, buffer[..32], ps, end, tail, zstd);
    }
    hide Model;
    forall header, ps, end, tail | IsModelFile(buffer, header, ps, end, tail, zstd)
      ensures Model(buffer, zstd) == Ok(Unpacked(ps)) {
      HeaderParts(header, PrintAll(ps, end) + tail, zstd);
      ModelReads(ps, end, tail, zstd);
    }
  }

  lemma {:induction false} ChunksHaveHeader(rest: Bytes, zstd: Zstandard)
    ensures Chunks(rest, zstd) != Err(NoHeader)
    decreases |rest|
  {
    hide Decompress;
    NextShortens(rest, zstd);
    NextHasHeader(rest, zstd);
    hide NextChunk;
    if rest != [] && NextChunk(rest, zstd).Ok? {
      ChunksHaveHeader(NextChunk(rest, zstd).value.1, zstd);
    }
  }

  lemma NextHasHeader(rest: Bytes, zstd: Zstandard)
    ensures NextChunk(rest, zstd) != Err(NoHeader)
  {
    hide Decode, ReadUInt32LE;
  }

  /** A file is refused for its header exactly when it is shorter than one or starts otherwise. */
  lemma {:induction false} HeaderRefused(buffer: Bytes, zstd: Zstandard)
    ensures Model(buffer, zstd) == Err(NoHeader) <==> |buffer| < 32 || !IsHeader(buffer[..32])
  {
    hide Chunks;
    if |buffer| >= 32 {
      ChunksHaveHeader(buffer[32..], zstd);
      assert buffer[..32][..14] == buffer[..14];
    }
  }

  /** A file cut anywhere before the end of its end mark is refused. */
  lemma {:induction false} CutFileIsRefused(header: Bytes, ps: seq<Packed>, end: Bytes, cut: nat, zstd: Zstandard)
    requires IsHeader(header) && IsEnd(end) && (forall p :: p in ps ==> Faithful(p, zstd))
    requires cut < |header + PrintAll(ps, end)|
    ensures Model((header + PrintAll(ps, end))[..cut], zstd).Err?
  {
    hide Chunks, Faithful, PrintAll;
    CutInto(header, PrintAll(ps, end), cut);
    if cut >= 32 {
      CutIsRefused(ps, end, cut - 32, zstd);
      HeaderParts(header, PrintAll(ps, end)[..cut - 32], zstd);
    }
  }

  /** Chunks without an end mark are refused for that, or for a chunk header that has begun. */
  lemma {:induction false} EndIsMissed(ps: seq<Packed>, more: Bytes, zstd: Zstandard)
    requires (forall p :: p in ps ==> Faithful(p, zstd)) && |more| < 16
    ensures Chunks(PrintAll(ps, more), zstd) == Err(if more == [] then NoEnd else TruncatedHeader)
  {
    if ps != [] {
      assert ps[0] in ps && forall p :: p in ps[1..] ==> p in ps;
      hide Faithful, Print, NextChunk;
      PrintedReads(ps[0], PrintAll(ps[1..], more), zstd);
      EndIsMissed(ps[1..], more, zstd);
    }
  }

  // ---------- The reader ----------

  class ByteReader {
    const bytes: Bytes
    var offset: nat

    ghost predicate Valid()
      reads this
    {
      offset <= |bytes|
    }

    ghost function Rest(): Bytes
      requires Valid()
      reads this
    {
      bytes[offset..]
    }

    constructor (bytes: Bytes)
      ensures Valid() && this.bytes == bytes && Rest() == bytes
    {
      this.bytes := bytes;
      offset := 0;
    }

    method Remaining() returns (n: nat)
      requires Valid()
      ensures n == |Rest()|
    {
      n := |bytes| - offset;
    }

    /** All of the bytes asked for, or none and the reader stays where it was. */
    method ReadBytes(length: nat) returns (r: Result<Bytes, Failure>)
      requires Valid()
      modifies this`offset
      ensures Valid()
      ensures r.Ok? <==> length <= |old(Rest())|
      ensures r.Ok? ==> r.value == old(Rest())[..length] && Rest() == old(Rest())[length..]
      ensures r.Err? ==> r.error == OutOfBytes && Rest() == old(Rest())
    {
      if |bytes| - offset < length {
        return Err(OutOfBytes);
      }
      r := Ok(bytes[offset..offset + length]);
      offset := offset + length;
    }

    method Skip(length: nat) returns (r: Result<(), Failure>)
      requires Valid()
      modifies this`offset
      ensures Valid()
      ensures r.Ok? <==> length <= |old(Rest())|
      ensures Rest() == if r.Ok? then old(Rest())[length..] else old(Rest())
      ensures r.Err? ==> r.error == OutOfBytes
    {
      if |bytes| - offset < length {
        return Err(OutOfBytes);
      }
      offset := offset + length;
      r := Ok(());
    }

    method ReadUint32() returns (r: Result<nat, Failure>)
      requires Valid()
      modifies this`offset
      ensures Valid()
      ensures r.Ok? <==> 4 <= |old(Rest())|
      ensures r.Ok? ==> r.value == ReadUInt32LE(old(Rest())[..4]) && Rest() == old(Rest())[4..]
      ensures r.Err? ==> r.error == OutOfBytes && Rest() == old(Rest())
    {
      hide ReadUInt32LE;
      var b := ReadBytes(4);
      r := if b.Ok? then Ok(ReadUInt32LE(b.value)) else Err(b.error);
    }
  }

  method DecompressChunk(compressed: Bytes, outputLength: nat, zstd: Zstandard) returns (r: Result<Bytes, Failure>)
    ensures r == Decompress(compressed, outputLength, zstd)
  {
    hide Decode;
    if |compressed| >= 4 && compressed[..4] == ZSTD_MAGIC {
      var d := zstd(compressed);
      return if d.None? || |d.value| != outputLength then Err(BadZstandard) else Ok(d.value);
    }
    var d := DecompressLz4Block(compressed, outputLength);
    r := if d.Ok? then Ok(d.value) else Err(BadLz4(d.error));
  }

  method ReadChunk(reader: ByteReader, zstd: Zstandard) returns (r: Result<Chunk, Failure>)
    requires reader.Valid()
    modifies reader`offset
    ensures reader.Valid()
    ensures r.Ok? ==> NextChunk(old(reader.Rest()), zstd) == Ok((r.value, reader.Rest()))
    ensures r.Err? ==> NextChunk(old(reader.Rest()), zstd) == Err(r.error)
  {
    hide Decompress, ReadUInt32LE;
    ghost var rest := reader.Rest();
    var remaining := reader.Remaining();
    if remaining < CHUNK_HEADER_BYTES {
      return Err(TruncatedHeader);
    }
    var name := reader.ReadBytes(4);
    assert rest[4..][..4] == rest[4..8] && rest[4..][4..] == rest[8..];
    var compressedLength := reader.ReadUint32();
    assert rest[8..][..4] == rest[8..12] && rest[8..][4..] == rest[12..];
    var length := reader.ReadUint32();
    assert rest[12..][4..] == rest[16..];
    var reserved := reader.Skip(4);
    if name.value == END {
      return Ok(Chunk(END, None));
    }
    var payload := reader.ReadBytes(if compressedLength.value == 0 then length.value else compressedLength.value);
    if payload.Err? {
      return Err(payload.error);
    }
    if compressedLength.value == 0 {
      return Ok(Chunk(name.value, Some(payload.value)));
    }
    var content := DecompressChunk(payload.value, length.value, zstd);
    r := if content.Ok? then Ok(Chunk(name.value, Some(content.value))) else Err(content.error);
  }

  function Prepended(front: seq<Chunk>, more: Result<seq<Chunk>, Failure>): Result<seq<Chunk>, Failure> {
    if more.Ok? then Ok(front + more.value) else more
  }

  lemma NothingPrepended(more: Result<seq<Chunk>, Failure>)
    ensures Prepended([], more) == more
  {
    if more.Ok? {
      assert [] + more.value == more.value;
    }
  }

  lemma PrependedStep(front: seq<Chunk>, rest: Bytes, zstd: Zstandard)
    requires rest != []
    ensures var next := NextChunk(rest, zstd);
            Prepended(front, Chunks(rest, zstd)) ==
            if next.Err? then Err(next.error)
            else if next.value.0.content.None? then Ok(front)
            else Prepended(front + [next.value.0], Chunks(next.value.1, zstd))
  {
    hide NextChunk;
    var next := NextChunk(rest, zstd);
    assert front + [] == front;
    if next.Ok? && next.value.0.content.Some? {
      var more := Chunks(next.value.1, zstd);
      if more.Ok? {
        assert front + ([next.value.0] + more.value) == front + [next.value.0] + more.value;
      }
    }
  }

  /** The chunk loop of parseBuiltInStudioSkills. */
  method ReadModel(buffer: Bytes, zstd: Zstandard) returns (r: Result<seq<Chunk>, Failure>)
    ensures r == Model(buffer, zstd)
  {
    hide NextChunk, Chunks;
    if |buffer| < HEADER_BYTES || buffer[..|MAGIC|] != MAGIC {
      return Err(NoHeader);
    }
    var reader := new ByteReader(buffer);
    var header := reader.ReadBytes(HEADER_BYTES);
    var chunks: seq<Chunk> := [];
    NothingPrepended(Chunks(reader.Rest(), zstd));
    var remaining := reader.Remaining();
    while remaining > 0
      invariant reader.Valid() && remaining == |reader.Rest()|
      invariant Model(buffer, zstd) == Prepended(chunks, Chunks(reader.Rest(), zstd))
      decreases remaining
    {
      PrependedStep(chunks, reader.Rest(), zstd);
      NextShortens(reader.Rest(), zstd);
      var chunk := ReadChunk(reader, zstd);
      if chunk.Err? {
        return Err(chunk.error);
      }
      if chunk.value.content.None? {
        return Ok(chunks);
      }
      chunks := chunks + [chunk.value];
      remaining := reader.Remaining();
    }
    NoChunks(zstd);
    return Err(NoEnd);
  }

  lemma NoChunks(zstd: Zstandard)
    ensures Chunks([], zstd) == Err(NoEnd)
  {}
}
