/**
 The LZ4 block decompressor of the skill loader, and what an LZ4 block means: a
 list of literal runs and back-references, as the LZ4 Block Format describes it.
 */
module Lz4 {
  import opened Common

  type Bytes = seq<Byte>

  // ---------- What a block means ----------

  /** A literal run, then a match: copy `matchLength` bytes starting `offset` bytes back. */
  datatype Sequence = Sequence(literals: Bytes, offset: nat, matchLength: nat)

  /** The literal-only end of a block. The low half of its token is ignored. */
  datatype LastLiterals = LastLiterals(literals: Bytes, lowNibble: nat)

  datatype Block = Block(sequences: seq<Sequence>, last: Option<LastLiterals>)

  /** Copies byte by byte, so the copy may overlap what it reads. */
  function CopyMatch(out: Bytes, offset: nat, n: nat): (copied: Bytes)
    requires 0 < offset <= |out|
    ensures |copied| == |out| + n && copied[..|out|] == out
    decreases n
  {
    if n == 0 then out else CopyMatch(out + [out[|out| - offset]], offset, n - 1)
  }

  /** A match repeats the last `offset` bytes periodically, however long it is. */
  lemma {:induction false} MatchIsPeriodic(out: Bytes, offset: nat, n: nat, k: nat)
    requires 0 < offset <= |out| && k < n
    ensures CopyMatch(out, offset, n)[|out| + k] == CopyMatch(out, offset, n)[|out| + k - offset]
    decreases n
  {
    var next := out + [out[|out| - offset]];
    var copied := CopyMatch(next, offset, n - 1);
    if k == 0 {
      assert copied[..|next|][|out|] == next[|out|] == next[|out| - offset] == copied[..|next|][|out| - offset];
    } else {
      MatchIsPeriodic(next, offset, n - 1, k - 1);
    }
  }

  predicate ValidSequence(out: Bytes, s: Sequence) {
    0 < s.offset <= 65535 && s.offset <= |out| + |s.literals| && s.matchLength >= 4
  }

  function ExpandSequence(out: Bytes, s: Sequence): Bytes
    requires ValidSequence(out, s)
  {
    CopyMatch(out + s.literals, s.offset, s.matchLength)
  }

  predicate ValidFrom(out: Bytes, ss: seq<Sequence>)
    decreases |ss|
  {
    ss == [] || (ValidSequence(out, ss[0]) && ValidFrom(ExpandSequence(out, ss[0]), ss[1..]))
  }

  /** The output once the sequences have been appended to `out`. */
  function ExpandFrom(out: Bytes, ss: seq<Sequence>): (full: Bytes)
    requires ValidFrom(out, ss)
    ensures |out| <= |full|
    decreases |ss|
  {
    if ss == [] then out else ExpandFrom(ExpandSequence(out, ss[0]), ss[1..])
  }

  predicate ValidBlock(out: Bytes, b: Block) {
    ValidFrom(out, b.sequences) && (b.last.Some? ==> b.last.value.lowNibble < 16)
  }

  function Expand(out: Bytes, b: Block): (full: Bytes)
    requires ValidBlock(out, b)
    ensures |out| <= |full|
  {
    ExpandFrom(out, b.sequences) + if b.last.Some? then b.last.value.literals else []
  }

  // ---------- How a block is written ----------

  function Nibble(n: nat): nat {
    Min(n, 15)
  }

  /** The bytes that extend a length whose nibble is 15: each 255 continues. */
  function Extension(n: nat): Bytes {
    if n < 255 then [n] else [255] + Extension(n - 255)
  }

  function LengthBytes(n: nat): Bytes {
    if n < 15 then [] else Extension(n - 15)
  }

  function Token(high: nat, low: nat): Byte
    requires high < 16 && low < 16
  {
    16 * high + low
  }

  function EncodeSequence(s: Sequence): Bytes
    requires s.offset <= 65535 && s.matchLength >= 4
  {
    [Token(Nibble(|s.literals|), Nibble(s.matchLength - 4))] + LengthBytes(|s.literals|) + s.literals
    + [s.offset % 256, s.offset / 256] + LengthBytes(s.matchLength - 4)
  }

  function EncodeLast(l: LastLiterals): Bytes
    requires l.lowNibble < 16
  {
    [Token(Nibble(|l.literals|), l.lowNibble)] + LengthBytes(|l.literals|) + l.literals
  }

  function EncodeSequences(out: Bytes, ss: seq<Sequence>): Bytes
    requires ValidFrom(out, ss)
    decreases |ss|
  {
    if ss == [] then [] else EncodeSequence(ss[0]) + EncodeSequences(ExpandSequence(out, ss[0]), ss[1..])
  }

  function Encode(out: Bytes, b: Block): Bytes
    requires ValidBlock(out, b)
  {
    EncodeSequences(out, b.sequences) + if b.last.Some? then EncodeLast(b.last.value) else []
  }

  // ---------- Decoding ----------

  datatype Error = TruncatedLength | LiteralExceedsBoundary | MissingOffset | InvalidOffset | MatchExceedsBoundary |
      WrongLength

  function ReadUInt16LE(low: int, high: int): int {
    low + 256 * high
  }

  function ReadExtension(length: nat, input: Bytes): Option<(nat, Bytes)>
    decreases |input|
  {
    if input == [] then None
    else if input[0] == 255 then ReadExtension(length + 255, input[1..])
    else Some((length + input[0], input[1..]))
  }

  function ReadLength(nibble: nat, input: Bytes): Option<(nat, Bytes)> {
    if nibble != 15 then Some((nibble, input)) else ReadExtension(15, input)
  }

  function Finish(out: Bytes, n: nat): Result<Bytes, Error> {
    if |out| == n then Ok(out) else Err(WrongLength)
  }

  lemma {:induction false} ReadExtensionShortens(length: nat, input: Bytes)
    ensures var r := ReadExtension(length, input);
            r.Some? ==> |r.value.1| < |input| && input[|input| - |r.value.1|..] == r.value.1
    decreases |input|
  {
    if input != [] && input[0] == 255 {
      ReadExtensionShortens(length + 255, input[1..]);
    }
  }

  lemma ReadLengthShortens(nibble: nat, input: Bytes)
    ensures var r := ReadLength(nibble, input);
            r.Some? ==> |r.value.1| <= |input| && input[|input| - |r.value.1|..] == r.value.1
  {
    ReadExtensionShortens(15, input);
  }

  /** The rest of the input, decoded onto `out`; `n` is the promised output length. */
  function Decode(input: Bytes, out: Bytes, n: nat): Result<Bytes, Error>
    decreases |input|
  {
    if input == [] then Finish(out, n) else
    var literals := ReadLength(input[0] / 16, input[1..]);
    if literals.None? then Err(TruncatedLength) else
    var (length, rest) := literals.value;
    if length > |rest| || |out| + length > n then Err(LiteralExceedsBoundary) else
    ReadLengthShortens(input[0] / 16, input[1..]);
    DecodeMatch(input[0] % 16, rest[length..], out + rest[..length], n)
  }

  function DecodeMatch(nibble: nat, input: Bytes, out: Bytes, n: nat): Result<Bytes, Error>
    decreases |input|
  {
    if input == [] then Finish(out, n)
    else if |input| < 2 then Err(MissingOffset) else
    var offset := ReadUInt16LE(input[0], input[1]);
    if offset == 0 || offset > |out| then Err(InvalidOffset) else
    var more := ReadLength(nibble, input[2..]);
    if more.None? then Err(TruncatedLength) else
    var (length, rest) := more.value;
    if |out| + length + 4 > n then Err(MatchExceedsBoundary) else
    ReadLengthShortens(nibble, input[2..]);
    Decode(rest, CopyMatch(out, offset, length + 4), n)
  }

  // ---------- Decoding undoes encoding ----------

  lemma {:induction false} ExtensionReads(acc: nat, n: nat, tail: Bytes)
    ensures ReadExtension(acc, Extension(n) + tail) == Some((acc + n, tail))
    decreases n
  {
    var bytes := Extension(n) + tail;
    if n < 255 {
      assert bytes[1..] == tail;
    } else {
      ExtensionReads(acc + 255, n - 255, tail);
      assert bytes[1..] == Extension(n - 255) + tail;
    }
  }

  lemma LengthReads(n: nat, tail: Bytes)
    ensures ReadLength(Nibble(n), LengthBytes(n) + tail) == Some((n, tail))
  {
    if n < 15 {
      assert LengthBytes(n) + tail == tail;
    } else {
      ExtensionReads(15, n - 15, tail);
    }
  }

  lemma LiteralsDecode(literals: Bytes, low: nat, tail: Bytes, out: Bytes, n: nat)
    requires low < 16 && |out| + |literals| <= n
    ensures Decode([Token(Nibble(|literals|), low)] + LengthBytes(|literals|) + literals + tail, out, n)
         == DecodeMatch(low, tail, out + literals, n)
  {
    var token := Token(Nibble(|literals|), low);
    var input := [token] + LengthBytes(|literals|) + literals + tail;
    assert token / 16 == Nibble(|literals|) && token % 16 == low;
    assert input[1..] == LengthBytes(|literals|) + (literals + tail);
    LengthReads(|literals|, literals + tail);
    assert (literals + tail)[|literals|..] == tail && (literals + tail)[..|literals|] == literals;
  }

  lemma MatchDecodes(offset: nat, matchLength: nat, tail: Bytes, out: Bytes, n: nat)
    requires 0 < offset <= 65535 && offset <= |out| && matchLength >= 4 && |out| + matchLength <= n
    ensures DecodeMatch(Nibble(matchLength - 4), [offset % 256, offset / 256] + LengthBytes(matchLength - 4) + tail,
        out, n)
         == Decode(tail, CopyMatch(out, offset, matchLength), n)
  {
    var input := [offset % 256, offset / 256] + LengthBytes(matchLength - 4) + tail;
    assert input[2..] == LengthBytes(matchLength - 4) + tail;
    LengthReads(matchLength - 4, tail);
  }

  lemma SequenceDecodes(s: Sequence, tail: Bytes, out: Bytes, n: nat)
    requires ValidSequence(out, s) && |ExpandSequence(out, s)| <= n
    ensures Decode(EncodeSequence(s) + tail, out, n) == Decode(tail, ExpandSequence(out, s), n)
  {
    var low := Nibble(s.matchLength - 4);
    var front := [Token(Nibble(|s.literals|), low)] + LengthBytes(|s.literals|) + s.literals;
    var back := [s.offset % 256, s.offset / 256] + LengthBytes(s.matchLength - 4) + tail;
    assert EncodeSequence(s) + tail == front + back;
    LiteralsDecode(s.literals, low, back, out, n);
    MatchDecodes(s.offset, s.matchLength, tail, out + s.literals, n);
  }

  lemma {:induction false} SequencesDecode(out: Bytes, ss: seq<Sequence>, tail: Bytes, n: nat)
    requires ValidFrom(out, ss) && |ExpandFrom(out, ss)| <= n
    ensures Decode(EncodeSequences(out, ss) + tail, out, n) == Decode(tail, ExpandFrom(out, ss), n)
    decreases |ss|
  {
    hide Decode, EncodeSequence, ExpandSequence;
    if ss == [] {
      assert EncodeSequences(out, ss) + tail == tail;
    } else {
      var next := ExpandSequence(out, ss[0]);
      var rest := EncodeSequences(next, ss[1..]);
      assert EncodeSequences(out, ss) + tail == EncodeSequence(ss[0]) + (rest + tail);
      SequenceDecodes(ss[0], rest + tail, out, n);
      SequencesDecode(next, ss[1..], tail, n);
    }
  }

  lemma EmptyDecodes(out: Bytes, low: nat, n: nat)
    requires low < 16
    ensures Decode([], out, n) == DecodeMatch(low, [], out, n) == Finish(out, n)
  {}

  /** Decoding the encoding of any valid block gives exactly its expansion. */
  lemma {:induction false} BlockDecodes(b: Block)
    requires ValidBlock([], b)
    ensures Decode(Encode([], b), [], |Expand([], b)|) == Ok(Expand([], b))
  {
    hide Decode, DecodeMatch, EncodeSequences, ExpandFrom, ValidFrom, LengthBytes;
    var front, full, n := EncodeSequences([], b.sequences), ExpandFrom([], b.sequences), |Expand([], b)|;
    if b.last.Some? {
      var l := b.last.value;
      SequencesDecode([], b.sequences, EncodeLast(l), n);
      assert EncodeLast(l) == [Token(Nibble(|l.literals|), l.lowNibble)] + LengthBytes(|l.literals|) + l.literals + [];
      LiteralsDecode(l.literals, l.lowNibble, [], full, n);
      EmptyDecodes(full + l.literals, l.lowNibble, n);
    } else {
      SequencesDecode([], b.sequences, [], n);
      EmptyDecodes(full, 0, n);
      assert full + [] == full;
    }
  }

  // ---------- Every accepted input is the encoding of a block ----------

  lemma {:induction false} ExtensionIsRead(acc: nat, input: Bytes)
    requires ReadExtension(acc, input).Some?
    ensures var (n, rest) := ReadExtension(acc, input).value; n >= acc && input == Extension(n - acc) + rest
    decreases |input|
  {
    var (n, rest) := ReadExtension(acc, input).value;
    if input[0] == 255 {
      ExtensionIsRead(acc + 255, input[1..]);
      assert input == [255] + (Extension(n - acc - 255) + rest);
    } else {
      assert input == [input[0]] + input[1..];
    }
  }

  lemma LengthIsRead(nibble: nat, input: Bytes)
    requires nibble < 16 && ReadLength(nibble, input).Some?
    ensures var (n, rest) := ReadLength(nibble, input).value; nibble == Nibble(n) && input == LengthBytes(n) + rest
  {
    if nibble == 15 {
      ExtensionIsRead(15, input);
    }
  }

  /** One step of an accepted input: its literals, and what follows them. */
  lemma LiteralsAreRead(input: Bytes, out: Bytes, n: nat) returns (literals: Bytes, after: Bytes)
    requires input != [] && Decode(input, out, n).Ok?
    ensures input == [Token(Nibble(|literals|), input[0] % 16)] + LengthBytes(|literals|) + literals + after
    ensures Decode(input, out, n) == DecodeMatch(input[0] % 16, after, out + literals, n)
    ensures |after| < |input|
  {
    LengthIsRead(input[0] / 16, input[1..]);
    var (length, rest) := ReadLength(input[0] / 16, input[1..]).value;
    literals, after := rest[..length], rest[length..];
    ReadLengthShortens(input[0] / 16, input[1..]);
    hide Decode, DecodeMatch, ReadLength, LengthBytes;
    RegroupLiterals(input, LengthBytes(length), rest, length);
  }

  lemma RegroupLiterals(input: Bytes, lengthBytes: Bytes, rest: Bytes, length: nat)
    requires input != [] && input[1..] == lengthBytes + rest && length <= |rest|
    ensures input == [input[0]] + lengthBytes + rest[..length] + rest[length..]
  {
    assert rest == rest[..length] + rest[length..];
  }

  lemma MatchIsRead(nibble: nat, after: Bytes, out: Bytes, n: nat) returns (offset: nat, matchLength: nat, tail: Bytes)
    requires nibble < 16 && after != [] && DecodeMatch(nibble, after, out, n).Ok?
    ensures 0 < offset <= 65535 && offset <= |out| && matchLength >= 4 && nibble == Nibble(matchLength - 4)
    ensures after == [offset % 256, offset / 256] + LengthBytes(matchLength - 4) + tail
    ensures DecodeMatch(nibble, after, out, n) == Decode(tail, CopyMatch(out, offset, matchLength), n)
    ensures |tail| < |after|
  {
    offset := ReadUInt16LE(after[0], after[1]);
    LengthIsRead(nibble, after[2..]);
    var (more, rest) := ReadLength(nibble, after[2..]).value;
    ReadLengthShortens(nibble, after[2..]);
    matchLength, tail := more + 4, rest;
    hide Decode, ReadLength, LengthBytes, CopyMatch;
    RegroupOffset(after, LengthBytes(more), tail);
  }

  lemma RegroupOffset(after: Bytes, lengthBytes: Bytes, tail: Bytes)
    requires |after| >= 2 && after[2..] == lengthBytes + tail
    ensures var offset := ReadUInt16LE(after[0], after[1]);
            offset <= 65535 && after == [offset % 256, offset / 256] + lengthBytes + tail
  {
    var offset := ReadUInt16LE(after[0], after[1]);
    assert offset % 256 == after[0] && offset / 256 == after[1];
    assert after == [after[0], after[1]] + after[2..];
  }

  /** Success exhibits the block: its encoding is the input and its expansion the output. */
  lemma {:induction false} AcceptedIsBlock(input: Bytes, out: Bytes, n: nat) returns (b: Block)
    requires Decode(input, out, n).Ok?
    ensures ValidBlock(out, b) && Encode(out, b) == input && Ok(Expand(out, b)) == Decode(input, out, n)
    decreases |input|
  {
    if input == [] {
      b := Block([], None);
      assert out + [] == out;
      return;
    }
    var literals, after := LiteralsAreRead(input, out, n);
    var front := [Token(Nibble(|literals|), input[0] % 16)] + LengthBytes(|literals|) + literals;
    if after == [] {
      b := Block([], Some(LastLiterals(literals, input[0] % 16)));
      EmptyDecodes(out + literals, input[0] % 16, n);
      assert Encode(out, b) == [] + EncodeLast(b.last.value) == front == front + [];
      return;
    }
    hide Decode, DecodeMatch, Encode, Expand, ValidBlock, LengthBytes;
    var offset, matchLength, tail := MatchIsRead(input[0] % 16, after, out + literals, n);
    var s := Sequence(literals, offset, matchLength);
    AssembleSequence(front, s, tail);
    var b' := AcceptedIsBlock(tail, ExpandSequence(out, s), n);
    b := PrependSequence(out, s, b');
  }

  lemma AssembleSequence(front: Bytes, s: Sequence, tail: Bytes)
    requires s.offset <= 65535 && s.matchLength >= 4
    requires front == [Token(Nibble(|s.literals|), Nibble(s.matchLength - 4))] + LengthBytes(|s.literals|) + s.literals
    ensures front + ([s.offset % 256, s.offset / 256] + LengthBytes(s.matchLength - 4) + tail) ==
        EncodeSequence(s) + tail
  {}

  lemma PrependSequence(out: Bytes, s: Sequence, b': Block) returns (b: Block)
    requires ValidSequence(out, s) && ValidBlock(ExpandSequence(out, s), b')
    ensures ValidBlock(out, b) && Expand(out, b) == Expand(ExpandSequence(out, s), b')
    ensures Encode(out, b) == EncodeSequence(s) + Encode(ExpandSequence(out, s), b')
  {
    b := Block([s] + b'.sequences, b'.last);
    assert b.sequences[1..] == b'.sequences;
  }

  /** The accepted inputs are exactly the encodings of valid blocks of the promised length, and each has one
      expansion. */
  lemma {:induction false} AcceptsExactlyBlocks(input: Bytes, n: nat)
    ensures Decode(input, [], n).Ok? <==>
        exists b :: ValidBlock([], b) && Encode([], b) == input && |Expand([], b)| == n
    ensures forall b :: ValidBlock([], b) && Encode([], b) == input && |Expand([], b)| == n ==>
                        Decode(input, [], n) == Ok(Expand([], b))
  {
    forall b | ValidBlock([], b) && Encode([], b) == input && |Expand([], b)| == n
      ensures Decode(input, [], n) == Ok(Expand([], b))
    {
      BlockDecodes(b);
    }
    if Decode(input, [], n).Ok? {
      var b := AcceptedIsBlock(input, [], n);
      ResultLength(input, [], n);
    }
  }

  lemma {:induction false} ResultLength(input: Bytes, out: Bytes, n: nat)
    requires Decode(input, out, n).Ok?
    ensures |Decode(input, out, n).value| == n
    decreases |input|
  {
    if input != [] {
      var literals, after := LiteralsAreRead(input, out, n);
      if after == [] {
        EmptyDecodes(out + literals, input[0] % 16, n);
      } else {
        hide Decode, DecodeMatch;
        var offset, matchLength, tail := MatchIsRead(input[0] % 16, after, out + literals, n);
        ResultLength(tail, CopyMatch(out + literals, offset, matchLength), n);
      }
    }
  }

  // ---------- The decompressor ----------

  /** readExtendedLength, advancing the input offset. */
  method ReadExtendedLength(input: Bytes, inputOffset: nat, initial: nat) returns (length: nat, next: nat, ok: bool)
    requires inputOffset <= |input|
    ensures ok ==>
              && inputOffset <= next <= |input|
              && ReadLength(initial, input[inputOffset..]) == Some((length, input[next..]))
    ensures !ok ==> ReadLength(initial, input[inputOffset..]).None?
  {
    length, next, ok := initial, inputOffset, true;
    if initial != 15 {
      return;
    }
    var byte := 255;
    while byte == 255
      invariant inputOffset <= next <= |input|
      invariant ReadExtension(15, input[inputOffset..])
             == if byte == 255 then ReadExtension(length, input[next..]) else Some((length, input[next..]))
      decreases |input| - next, byte
    {
      if next >= |input| {
        ok := false;
        return;
      }
      byte := input[next];
      assert input[next..][1..] == input[next + 1..];
      next := next + 1;
      length := length + byte;
    }
  }

  /** What the checks between a token and the end of its literals decide. */
  lemma LiteralStep(input: Bytes, at: nat, out: Bytes, n: nat)
    requires at < |input|
    ensures var r := ReadLength(input[at] / 16, input[at + 1..]);
            && (r.None? ==> Decode(input[at..], out, n) == Err(TruncatedLength))
            && (r.Some? && (r.value.0 > |r.value.1| || |out| + r.value.0 > n)
                ==> Decode(input[at..], out, n) == Err(LiteralExceedsBoundary))
            && (r.Some? && r.value.0 <= |r.value.1| && |out| + r.value.0 <= n
                ==> Decode(input[at..], out, n)
                    == DecodeMatch(input[at] % 16, r.value.1[r.value.0..], out + r.value.1[..r.value.0], n))
  {
    assert input[at..][1..] == input[at + 1..];
  }

  lemma MatchStep(input: Bytes, at: nat, nibble: nat, out: Bytes, n: nat)
    requires at + 2 <= |input|
    ensures var r, offset := ReadLength(nibble, input[at + 2..]), ReadUInt16LE(input[at], input[at + 1]);
            && (offset == 0 || offset > |out| ==> DecodeMatch(nibble, input[at..], out, n) == Err(InvalidOffset))
            && (0 < offset <= |out| && r.None? ==> DecodeMatch(nibble, input[at..], out, n) == Err(TruncatedLength))
            && (0 < offset <= |out| && r.Some? && |out| + r.value.0 + 4 > n
                ==> DecodeMatch(nibble, input[at..], out, n) == Err(MatchExceedsBoundary))
            && (0 < offset <= |out| && r.Some? && |out| + r.value.0 + 4 <= n
                ==> DecodeMatch(nibble, input[at..], out, n) ==
                    Decode(r.value.1, CopyMatch(out, offset, r.value.0 + 4), n))
  {
    assert input[at..][2..] == input[at + 2..];
  }

  lemma NothingLeft(input: Bytes, nibble: nat, out: Bytes, n: nat)
    ensures Decode(input[|input|..], out, n) == Finish(out, n)
    ensures DecodeMatch(nibble, input[|input|..], out, n) == Finish(out, n)
  {
    assert input[|input|..] == [];
  }

  /**
   decompressLz4Block. The output buffer starts with arbitrary contents, so
   equality with a function of the input says no unwritten byte is ever read.
   */
  method DecompressLz4Block(input: Bytes, outputLength: nat) returns (r: Result<Bytes, Error>)
    ensures r == Decode(input, [], outputLength)
  {
    hide Decode, DecodeMatch, ReadLength, CopyMatch;
    var output := new Byte[outputLength];
    var inputOffset, outputOffset := 0, 0;
    assert input[0..] == input;
    while inputOffset < |input|
      invariant 0 <= inputOffset <= |input| && 0 <= outputOffset <= outputLength
      invariant Decode(input, [], outputLength) == Decode(input[inputOffset..], output[..outputOffset], outputLength)
      decreases |input| - inputOffset
    {
      LiteralStep(input, inputOffset, output[..outputOffset], outputLength);
      var token := input[inputOffset];
      inputOffset := inputOffset + 1;
      var literalLength, afterLength, ok := ReadExtendedLength(input, inputOffset, token / 16);
      if !ok {
        return Err(TruncatedLength);
      }
      inputOffset := afterLength;
      if inputOffset + literalLength > |input| || outputOffset + literalLength > outputLength {
        return Err(LiteralExceedsBoundary);
      }
      DropTwice(input, inputOffset, literalLength);
      CopyInto(output, outputOffset, input[inputOffset..inputOffset + literalLength]);
      inputOffset := inputOffset + literalLength;
      outputOffset := outputOffset + literalLength;
      assert Decode(input, [], outputLength)
          == DecodeMatch(token % 16, input[inputOffset..], output[..outputOffset], outputLength);
      NothingLeft(input, token % 16, output[..outputOffset], outputLength);
      if inputOffset == |input| {
        break;
      }
      if inputOffset + 2 > |input| {
        assert DecodeMatch(token % 16, input[inputOffset..], output[..outputOffset], outputLength) ==
            Err(MissingOffset) by {
          OneByteLeft(input[inputOffset..], token % 16, output[..outputOffset], outputLength);
        }
        return Err(MissingOffset);
      }
      MatchStep(input, inputOffset, token % 16, output[..outputOffset], outputLength);
      var matchOffset := ReadUInt16LE(input[inputOffset], input[inputOffset + 1]);
      inputOffset := inputOffset + 2;
      if matchOffset == 0 || matchOffset > outputOffset {
        return Err(InvalidOffset);
      }
      var extra, afterMatch, fine := ReadExtendedLength(input, inputOffset, token % 16);
      if !fine {
        return Err(TruncatedLength);
      }
      inputOffset := afterMatch;
      var matchLength := extra + 4;
      if outputOffset + matchLength > outputLength {
        return Err(MatchExceedsBoundary);
      }
      outputOffset := CopyBack(output, outputOffset, matchOffset, matchLength);
    }
    NothingLeft(input, 0, output[..outputOffset], outputLength);
    if outputOffset != outputLength {
      return Err(WrongLength);
    }
    assert output[..outputOffset] == output[..];
    return Ok(output[..]);
  }

  lemma OneByteLeft(input: Bytes, nibble: nat, out: Bytes, n: nat)
    requires |input| == 1
    ensures DecodeMatch(nibble, input, out, n) == Err(MissingOffset)
  {}

  lemma DropTwice(s: Bytes, m: nat, n: nat)
    requires m + n <= |s|
    ensures s[m..][n..] == s[m + n..] && s[m..][..n] == s[m..m + n]
  {}

  /** The match loop: each byte is read back from the output just written. */
  method CopyBack(output: array<Byte>, start: nat, matchOffset: nat, matchLength: nat) returns (outputOffset: nat)
    requires 0 < matchOffset <= start && start + matchLength <= output.Length
    modifies output
    ensures outputOffset == start + matchLength
    ensures output[..outputOffset] == CopyMatch(old(output[..start]), matchOffset, matchLength)
  {
    outputOffset := start;
    var index := 0;
    while index < matchLength
      invariant 0 <= index <= matchLength && outputOffset == start + index
      invariant CopyMatch(old(output[..start]), matchOffset, matchLength)
             == CopyMatch(output[..outputOffset], matchOffset, matchLength - index)
    {
      output[outputOffset] := output[outputOffset - matchOffset];
      outputOffset := outputOffset + 1;
      index := index + 1;
      assert output[..outputOffset] == output[..outputOffset - 1] + [output[outputOffset - 1]];
    }
  }

  method CopyInto(output: array<Byte>, at: nat, source: Bytes)
    requires at + |source| <= output.Length
    modifies output
    ensures output[..at + |source|] == old(output[..at]) + source
  {
    var i := 0;
    while i < |source|
      invariant 0 <= i <= |source|
      invariant output[..at + i] == old(output[..at]) + source[..i]
    {
      output[at + i] := source[i];
      i := i + 1;
    }
  }
}
