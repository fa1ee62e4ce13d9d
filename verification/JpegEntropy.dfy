/**
 The entropy coding of quantised 8x8 blocks in a baseline JPEG scan: the bits of
 a list of blocks (sections F.1.2.1 to F.1.2.3 of ITU-T T.81) and the decoder
 that reads them back (section F.2.2).
 */
module JpegEntropy {
  import opened Common
  import opened Huffman

  // ---------- Magnitudes ----------

  function Abs(v: int): nat {
    if v < 0 then -v else v
  }

  /** The magnitude category SSSS: how many bits |v| has. */
  function Category(v: int): nat
    decreases Abs(v)
  {
    if v == 0 then 0 else 1 + Category(Abs(v) / 2)
  }

  lemma {:induction false} CategoryBounds(v: int)
    requires v != 0
    ensures Category(v) > 0 && Pow2(Category(v) - 1) <= Abs(v) < Pow2(Category(v))
    decreases Abs(v)
  {
    if Abs(v) / 2 != 0 {
      CategoryBounds(Abs(v) / 2);
    }
  }

  lemma {:induction false} CategoryAtMost(v: int, c: nat)
    requires Abs(v) < Pow2(c)
    ensures Category(v) <= c
    decreases c
  {
    if v != 0 {
      CategoryAtMost(Abs(v) / 2, c - 1);
    }
  }

  lemma CategoryIs(v: int, c: nat)
    requires c > 0 && Pow2(c - 1) <= Abs(v) < Pow2(c)
    ensures Category(v) == c
  {
    CategoryAtMost(v, c);
    CategoryBounds(v);
    if Category(v) < c {
      Pow2Monotonic(Category(v), c - 1);
    }
  }

  /** The low-order bits appended after the category's code: negative values count up from 0. */
  function MagnitudeCode(v: int): int {
    if v >= 0 then v else v + Pow2(Category(v)) - 1
  }

  lemma MagnitudeFits(v: int)
    ensures 0 <= MagnitudeCode(v) < Pow2(Category(v))
  {
    if v != 0 {
      CategoryBounds(v);
    }
  }

  function MagnitudeBits(v: int): Bits {
    MagnitudeFits(v);
    ToBits(MagnitudeCode(v), Category(v))
  }

  /** EXTEND of section F.2.2.1. */
  function Extend(code: nat, size: nat): int {
    if size == 0 then 0 else if code < Pow2(size - 1) then code - Pow2(size) + 1 else code
  }

  lemma {:induction false} ExtendUndoesMagnitude(v: int)
    ensures |MagnitudeBits(v)| == Category(v)
    ensures Extend(ValueOf(MagnitudeBits(v)), Category(v)) == v
  {
    MagnitudeFits(v);
    ValueOfToBits(MagnitudeCode(v), Category(v));
    if v != 0 {
      CategoryBounds(v);
    }
  }

  // ---------- Encoding a block ----------

  /** 64 coefficients in zigzag order. */
  type Block = b: seq<int> | |b| == 64 witness seq(64, i => 0)

  datatype Tables = Tables(dc: map<int, BitCode>, ac: map<int, BitCode>)
  {
    /** Both codes are prefix-free and cover the symbols that baseline coefficients need. */
    ghost predicate Usable() {
      && PrefixFree(dc) && PrefixFree(ac)
      && (forall c :: 0 <= c <= 11 ==> c in dc)
      && CoversAc(ac)
    }
  }

  /** End of block, a run of sixteen zeros, and every run and category. */
  ghost predicate CoversAc(ac: map<int, BitCode>) {
    0x00 in ac && 0xf0 in ac && forall rs :: AcSymbol(rs) ==> rs in ac
  }

  /** A run of at most 15 zeros and a category from 1 to 10. */
  predicate AcSymbol(rs: int) {
    0 <= rs < 256 && 1 <= rs % 16 <= 10
  }

  predicate AcInRange(b: Block) {
    forall k :: 1 <= k < 64 ==> -1023 <= b[k] <= 1023
  }

  /** The baseline limits: AC magnitudes below 2^10, the DC difference below 2^11. */
  predicate InRange(b: Block, pred: int) {
    AcInRange(b) && -2047 <= b[0] - pred <= 2047
  }

  function Zeros(n: nat): seq<int> {
    seq(n, i => 0)
  }

  function Repeat(bits: Bits, n: nat): Bits {
    if n == 0 then [] else bits + Repeat(bits, n - 1)
  }

  lemma AcSymbolOf(v: int, r: nat)
    requires v != 0 && -1023 <= v <= 1023
    ensures var rs := (r % 16) * 16 + Category(v);
            AcSymbol(rs) && rs / 16 == r % 16 && rs % 16 == Category(v) && rs != 0 && rs != 0xf0
  {
    assert Pow2(10) == 1024;
    CategoryAtMost(v, 10);
    CategoryBounds(v);
    RunAndSize(r % 16, Category(v));
  }

  lemma RunAndSize(r: nat, size: nat)
    requires r < 16 && size < 16
    ensures (r * 16 + size) / 16 == r && (r * 16 + size) % 16 == size
  {}

  /** Figure F.2: the bits of coefficients k to 63 after a run of r zeros. */
  ghost function AcBits(b: Block, k: nat, r: nat, ac: map<int, BitCode>): Bits
    requires 1 <= k <= 64 && AcInRange(b) && CoversAc(ac)
    decreases 64 - k
  {
    if k == 64 then (if r > 0 then CodeBits(ac, 0x00) else [])
    else if b[k] == 0 then AcBits(b, k + 1, r + 1, ac)
    else
      AcSymbolOf(b[k], r);
      Repeat(CodeBits(ac, 0xf0), r / 16)
      + (CodeBits(ac, (r % 16) * 16 + Category(b[k])) + MagnitudeBits(b[k]) + AcBits(b, k + 1, 0, ac))
  }

  function DcBits(diff: int, dc: map<int, BitCode>): Bits
    requires Category(diff) in dc
  {
    CodeBits(dc, Category(diff)) + MagnitudeBits(diff)
  }

  lemma DcCategory(diff: int)
    requires -2047 <= diff <= 2047
    ensures Category(diff) <= 11
  {
    assert Pow2(11) == 2048;
    CategoryAtMost(diff, 11);
  }

  ghost function BlockBits(b: Block, pred: int, t: Tables): Bits
    requires t.Usable() && InRange(b, pred)
  {
    DcCategory(b[0] - pred);
    DcBits(b[0] - pred, t.dc) + AcBits(b, 1, 0, t.ac)
  }

  // ---------- Decoding a block ----------

  /** A coefficient of `size` magnitude bits, and the bits after it. */
  function Receive(size: nat, bits: Bits): Option<(int, Bits)> {
    if |bits| < size then None else Some((Extend(ValueOf(bits[..size]), size), bits[size..]))
  }

  lemma ReceiveUndoesMagnitude(v: int, rest: Bits)
    ensures Receive(Category(v), MagnitudeBits(v) + rest) == Some((v, rest))
  {
    ExtendUndoesMagnitude(v);
    assert (MagnitudeBits(v) + rest)[..Category(v)] == MagnitudeBits(v);
    assert (MagnitudeBits(v) + rest)[Category(v)..] == rest;
  }

  ghost function Prepend(front: seq<int>, back: Option<(seq<int>, Bits)>): Option<(seq<int>, Bits)> {
    if back.None? then None else Some((front + back.value.0, back.value.1))
  }

  /** Section F.2.2.2: coefficients k to 63, and the bits after them. */
  ghost function DecodeAc(ac: map<int, BitCode>, k: nat, bits: Bits): Option<(seq<int>, Bits)>
    requires PrefixFree(ac) && k <= 64
    decreases 64 - k
  {
    if k == 64 then Some(([], bits)) else
    var symbol := DecodeSymbol(ac, bits);
    if symbol.None? then None else
    var (rs, rest) := symbol.value;
    if rs == 0x00 then Some((Zeros(64 - k), rest))
    else if rs == 0xf0 then (if k + 16 > 64 then None else Prepend(Zeros(16), DecodeAc(ac, k + 16, rest)))
    else if rs < 0 || k + rs / 16 >= 64 then None
    else
      var value := Receive(rs % 16, rest);
      if value.None? then None else
      Prepend(Zeros(rs / 16) + [value.value.0], DecodeAc(ac, k + rs / 16 + 1, value.value.1))
  }

  ghost function DecodeBlock(t: Tables, pred: int, bits: Bits): Option<(seq<int>, Bits)>
    requires PrefixFree(t.dc) && PrefixFree(t.ac)
  {
    var symbol := DecodeSymbol(t.dc, bits);
    if symbol.None? || symbol.value.0 < 0 then None else
    var diff := Receive(symbol.value.0, symbol.value.1);
    if diff.None? then None else
    Prepend([pred + diff.value.0], DecodeAc(t.ac, 1, diff.value.1))
  }

  lemma PrependTwice(a: seq<int>, b: seq<int>, d: Option<(seq<int>, Bits)>)
    ensures Prepend(a, Prepend(b, d)) == Prepend(a + b, d)
    ensures Prepend([], d) == d
  {
    if d.Some? {
      assert a + (b + d.value.0) == (a + b) + d.value.0;
      assert [] + d.value.0 == d.value.0;
    }
  }

  lemma ZrlDecodes(ac: map<int, BitCode>, k: nat, tail: Bits)
    requires PrefixFree(ac) && 0xf0 in ac && k + 16 < 64
    ensures DecodeAc(ac, k, CodeBits(ac, 0xf0) + tail) == Prepend(Zeros(16), DecodeAc(ac, k + 16, tail))
  {
    hide CodeBits, PrefixFree, Receive;
    SymbolDecodes(ac, 0xf0, tail);
  }

  lemma {:induction false} RunsDecode(ac: map<int, BitCode>, n: nat, k: nat, tail: Bits)
    requires PrefixFree(ac) && 0xf0 in ac && k + 16 * n < 64
    ensures DecodeAc(ac, k, Repeat(CodeBits(ac, 0xf0), n) + tail)
         == Prepend(Zeros(16 * n), DecodeAc(ac, k + 16 * n, tail))
    decreases n
  {
    hide CodeBits, PrefixFree, DecodeAc, Prepend;
    var code := CodeBits(ac, 0xf0);
    var d := DecodeAc(ac, k + 16 * n, tail);
    if n == 0 {
      assert Repeat(code, 0) + tail == tail && Zeros(0) == [];
      PrependTwice([], [], d);
    } else {
      RegroupBits(code, Repeat(code, n - 1), tail, []);
      ZrlDecodes(ac, k, Repeat(code, n - 1) + tail);
      RunsDecode(ac, n - 1, k + 16, tail);
      PrependTwice(Zeros(16), Zeros(16 * (n - 1)), d);
      assert Zeros(16) + Zeros(16 * (n - 1)) == Zeros(16 * n);
    }
  }

  /** One nonzero coefficient after a run shorter than 16. */
  lemma CoefficientDecodes(ac: map<int, BitCode>, v: int, r: nat, k: nat, tail: Bits)
    requires PrefixFree(ac) && v != 0 && -1023 <= v <= 1023 && r < 16 && k + r < 64
    requires r * 16 + Category(v) in ac
    ensures DecodeAc(ac, k, CodeBits(ac, r * 16 + Category(v)) + MagnitudeBits(v) + tail)
         == Prepend(Zeros(r) + [v], DecodeAc(ac, k + r + 1, tail))
  {
    hide CodeBits, PrefixFree, Receive, MagnitudeBits;
    AcSymbolOf(v, r);
    var rs := r * 16 + Category(v);
    assert CodeBits(ac, rs) + MagnitudeBits(v) + tail == CodeBits(ac, rs) + (MagnitudeBits(v) + tail);
    SymbolDecodes(ac, rs, MagnitudeBits(v) + tail);
    ReceiveUndoesMagnitude(v, tail);
  }

  /** A run of r zeros, written as ZRL codes and a remainder, and the nonzero coefficient v ending it at position k. */
  lemma RunAndCoefficientDecode(ac: map<int, BitCode>, v: int, r: nat, k: nat, tail: Bits)
    requires PrefixFree(ac) && 0xf0 in ac && v != 0 && -1023 <= v <= 1023 && r < k < 64
    requires (r % 16) * 16 + Category(v) in ac
    ensures DecodeAc(ac, k - r, Repeat(CodeBits(ac, 0xf0), r / 16)
                                + (CodeBits(ac, (r % 16) * 16 + Category(v)) + MagnitudeBits(v) + tail))
         == Prepend(Zeros(r) + [v], DecodeAc(ac, k + 1, tail))
  {
    hide CodeBits, PrefixFree, MagnitudeBits, DecodeAc, Repeat;
    var n, m := r / 16, r % 16;
    var coefficient := CodeBits(ac, m * 16 + Category(v)) + MagnitudeBits(v);
    RunsDecode(ac, n, k - r, coefficient + tail);
    CoefficientDecodes(ac, v, m, k - m, tail);
    PrependTwice(Zeros(16 * n), Zeros(m) + [v], DecodeAc(ac, k + 1, tail));
    assert Zeros(16 * n) + (Zeros(m) + [v]) == Zeros(r) + [v];
  }

  lemma RegroupBits(a: Bits, b: Bits, c: Bits, d: Bits)
    ensures (a + (b + c)) + d == a + (b + (c + d))
    ensures (a + b) + c == a + (b + c)
  {}

  lemma AcStep(b: Block, k: nat, r: nat, ac: map<int, BitCode>, tail: Bits)
    requires r < k < 64 && AcInRange(b) && PrefixFree(ac) && CoversAc(ac) && b[k] != 0
    ensures DecodeAc(ac, k - r, AcBits(b, k, r, ac) + tail)
         == Prepend(Zeros(r) + [b[k]], DecodeAc(ac, k + 1, AcBits(b, k + 1, 0, ac) + tail))
  {
    var v, rest := b[k], AcBits(b, k + 1, 0, ac);
    AcSymbolOf(v, r);
    var runs, coefficient := Repeat(CodeBits(ac, 0xf0), r / 16),
        CodeBits(ac, (r % 16) * 16 + Category(v)) + MagnitudeBits(v);
    assert AcBits(b, k, r, ac) == runs + (coefficient + rest);
    assert (r % 16) * 16 + Category(v) in ac && -1023 <= v <= 1023;
    hide *;
    RegroupBits(runs, coefficient, rest, tail);
    RunAndCoefficientDecode(ac, v, r, k, rest + tail);
  }

  /** The run of r zeros before position k grows by one, or ends with the coefficient at k. */
  lemma RunGrows(b: Block, k: nat, r: nat)
    requires r < k < 64 && b[k - r..k] == Zeros(r)
    ensures b[k] == 0 ==> b[k - r..k + 1] == Zeros(r + 1)
    ensures Zeros(r) + [b[k]] + b[k + 1..] == b[k - r..]
  {
    assert b[k - r..k + 1] == b[k - r..k] + [b[k]];
    assert b[k - r..] == b[k - r..k] + ([b[k]] + b[k + 1..]);
  }

  lemma AcSkipsZero(b: Block, k: nat, r: nat, ac: map<int, BitCode>)
    requires 1 <= k < 64 && AcInRange(b) && CoversAc(ac) && b[k] == 0
    ensures AcBits(b, k, r, ac) == AcBits(b, k + 1, r + 1, ac)
  {}

  /** Decoding from the start of the pending run gives the run and every coefficient after it. */
  lemma {:induction false} AcDecodes(b: Block, k: nat, r: nat, ac: map<int, BitCode>, tail: Bits)
    requires r < k <= 64 && AcInRange(b) && PrefixFree(ac) && CoversAc(ac)
    requires b[k - r..k] == Zeros(r)
    ensures DecodeAc(ac, k - r, AcBits(b, k, r, ac) + tail) == Some((b[k - r..], tail))
    decreases 64 - k
  {
    hide DecodeAc, AcBits, PrefixFree, CoversAc, AcInRange;
    if k == 64 {
      LastRunDecodes(b, r, ac, tail);
    } else {
      RunGrows(b, k, r);
      if b[k] == 0 {
        AcSkipsZero(b, k, r, ac);
        AcDecodes(b, k + 1, r + 1, ac, tail);
      } else {
        AcStep(b, k, r, ac, tail);
        assert b[k + 1 - 0..k + 1] == Zeros(0);
        AcDecodes(b, k + 1, 0, ac, tail);
      }
    }
  }

  lemma LastRunDecodes(b: Block, r: nat, ac: map<int, BitCode>, tail: Bits)
    requires r < 64 && AcInRange(b) && PrefixFree(ac) && CoversAc(ac)
    requires b[64 - r..64] == Zeros(r)
    ensures DecodeAc(ac, 64 - r, AcBits(b, 64, r, ac) + tail) == Some((b[64 - r..], tail))
  {
    if r > 0 {
      SymbolDecodes(ac, 0x00, tail);
      assert b[64 - r..] == b[64 - r..64];
    } else {
      assert AcBits(b, 64, r, ac) + tail == tail && b[64..] == [];
    }
  }

  /** Decoding undoes encoding, for every block within the baseline limits and whatever bits follow it. */
  lemma {:induction false} BlockDecodes(b: Block, pred: int, t: Tables, tail: Bits)
    requires t.Usable() && InRange(b, pred)
    ensures DecodeBlock(t, pred, BlockBits(b, pred, t) + tail) == Some((b, tail))
  {
    hide CodeBits, PrefixFree, Receive, MagnitudeBits, AcBits, DecodeAc;
    var diff := b[0] - pred;
    DcCategory(diff);
    var ac := AcBits(b, 1, 0, t.ac);
    assert BlockBits(b, pred, t) + tail == CodeBits(t.dc, Category(diff)) + (MagnitudeBits(diff) + (ac + tail));
    SymbolDecodes(t.dc, Category(diff), MagnitudeBits(diff) + (ac + tail));
    ReceiveUndoesMagnitude(diff, ac + tail);
    AcDecodes(b, 1, 0, t.ac, tail);
    assert [b[0]] + b[1..] == b;
  }

  // ---------- A scan of interleaved components ----------

  /** One 8x8 unit of each component; chrominance is not subsampled. */
  datatype Mcu = Mcu(y: Block, u: Block, v: Block)

  /** The DC value each component's next difference is taken from. */
  datatype Preds = Preds(y: int, u: int, v: int)

  predicate ScanInRange(mcus: seq<Mcu>, p: Preds) {
    forall i :: 0 <= i < |mcus| ==> McuInRange(mcus, p, i)
  }

  predicate McuInRange(mcus: seq<Mcu>, p: Preds, i: nat)
    requires i < |mcus|
  {
    var before := if i == 0 then p else DcOf(mcus[i - 1]);
    InRange(mcus[i].y, before.y) && InRange(mcus[i].u, before.u) && InRange(mcus[i].v, before.v)
  }

  function DcOf(m: Mcu): Preds {
    Preds(m.y[0], m.u[0], m.v[0])
  }

  ghost function McuBits(m: Mcu, p: Preds, luma: Tables, chroma: Tables): Bits
    requires luma.Usable() && chroma.Usable()
    requires InRange(m.y, p.y) && InRange(m.u, p.u) && InRange(m.v, p.v)
  {
    BlockBits(m.y, p.y, luma) + (BlockBits(m.u, p.u, chroma) + BlockBits(m.v, p.v, chroma))
  }

  lemma ScanTailInRange(mcus: seq<Mcu>, p: Preds)
    requires ScanInRange(mcus, p) && mcus != []
    ensures ScanInRange(mcus[1..], DcOf(mcus[0])) && McuInRange(mcus, p, 0)
  {
    forall i | 0 <= i < |mcus[1..]| ensures McuInRange(mcus[1..], DcOf(mcus[0]), i) {
      assert McuInRange(mcus, p, i + 1);
    }
  }

  ghost function ScanBits(mcus: seq<Mcu>, p: Preds, luma: Tables, chroma: Tables): Bits
    requires luma.Usable() && chroma.Usable() && ScanInRange(mcus, p)
  {
    if mcus == [] then [] else
    ScanTailInRange(mcus, p);
    McuBits(mcus[0], p, luma, chroma) + ScanBits(mcus[1..], DcOf(mcus[0]), luma, chroma)
  }

  ghost function DecodeMcu(p: Preds, luma: Tables, chroma: Tables, bits: Bits): Option<(Mcu, Bits)>
    requires luma.Usable() && chroma.Usable()
  {
    var y := DecodeBlock(luma, p.y, bits);
    if y.None? || |y.value.0| != 64 then None else
    var u := DecodeBlock(chroma, p.u, y.value.1);
    if u.None? || |u.value.0| != 64 then None else
    var v := DecodeBlock(chroma, p.v, u.value.1);
    if v.None? || |v.value.0| != 64 then None else
    Some((Mcu(y.value.0, u.value.0, v.value.0), v.value.1))
  }

  /** n units decoded one after another. */
  ghost function DecodeScan(n: nat, p: Preds, luma: Tables, chroma: Tables, bits: Bits): Option<(seq<Mcu>, Bits)>
    requires luma.Usable() && chroma.Usable()
  {
    if n == 0 then Some(([], bits)) else
    var m := DecodeMcu(p, luma, chroma, bits);
    if m.None? then None else
    var rest := DecodeScan(n - 1, DcOf(m.value.0), luma, chroma, m.value.1);
    if rest.None? then None else Some(([m.value.0] + rest.value.0, rest.value.1))
  }

  lemma McuDecodes(m: Mcu, p: Preds, luma: Tables, chroma: Tables, tail: Bits)
    requires luma.Usable() && chroma.Usable()
    requires InRange(m.y, p.y) && InRange(m.u, p.u) && InRange(m.v, p.v)
    ensures DecodeMcu(p, luma, chroma, McuBits(m, p, luma, chroma) + tail) == Some((m, tail))
  {
    hide BlockBits, DecodeBlock, Tables.Usable, InRange;
    var y, u, v := BlockBits(m.y, p.y, luma), BlockBits(m.u, p.u, chroma), BlockBits(m.v, p.v, chroma);
    assert McuBits(m, p, luma, chroma) + tail == y + (u + (v + tail));
    BlockDecodes(m.y, p.y, luma, u + (v + tail));
    BlockDecodes(m.u, p.u, chroma, v + tail);
    BlockDecodes(m.v, p.v, chroma, tail);
  }

  lemma DecodeScanUnfolds(n: nat, p: Preds, luma: Tables, chroma: Tables, bits: Bits)
    requires luma.Usable() && chroma.Usable() && n > 0
    ensures DecodeMcu(p, luma, chroma, bits).Some? ==>
              var (m, next) := DecodeMcu(p, luma, chroma, bits).value;
              var rest := DecodeScan(n - 1, DcOf(m), luma, chroma, next);
              rest.Some? ==> DecodeScan(n, p, luma, chroma, bits) == Some(([m] + rest.value.0, rest.value.1))
  {}

  lemma ScanStep(mcus: seq<Mcu>, p: Preds, luma: Tables, chroma: Tables, tail: Bits)
    requires luma.Usable() && chroma.Usable() && ScanInRange(mcus, p) && mcus != []
    ensures ScanInRange(mcus[1..], DcOf(mcus[0]))
    ensures DecodeMcu(p, luma, chroma, ScanBits(mcus, p, luma, chroma) + tail)
         == Some((mcus[0], ScanBits(mcus[1..], DcOf(mcus[0]), luma, chroma) + tail))
  {
    ScanTailInRange(mcus, p);
    var m, rest := mcus[0], ScanBits(mcus[1..], DcOf(mcus[0]), luma, chroma);
    assert InRange(m.y, p.y) && InRange(m.u, p.u) && InRange(m.v, p.v);
    assert ScanBits(mcus, p, luma, chroma) == McuBits(m, p, luma, chroma) + rest;
    hide *;
    RegroupBits(McuBits(m, p, luma, chroma), rest, tail, []);
    McuDecodes(m, p, luma, chroma, rest + tail);
  }

  lemma EmptyScanDecodes(p: Preds, luma: Tables, chroma: Tables, tail: Bits)
    requires luma.Usable() && chroma.Usable()
    ensures DecodeScan(0, p, luma, chroma, ScanBits([], p, luma, chroma) + tail) == Some(([], tail))
  {
    hide Tables.Usable;
    assert ScanBits([], p, luma, chroma) + tail == tail;
  }

  /** Decoding the bits of any scan within the baseline limits gives its blocks and leaves what follows it. */
  lemma {:induction false} ScanDecodes(mcus: seq<Mcu>, p: Preds, luma: Tables, chroma: Tables, tail: Bits)
    requires luma.Usable() && chroma.Usable() && ScanInRange(mcus, p)
    ensures DecodeScan(|mcus|, p, luma, chroma, ScanBits(mcus, p, luma, chroma) + tail) == Some((mcus, tail))
  {
    hide ScanBits, ScanInRange, DecodeMcu, Tables.Usable, DecodeScan;
    if mcus == [] {
      EmptyScanDecodes(p, luma, chroma, tail);
    } else {
      ScanStep(mcus, p, luma, chroma, tail);
      DecodeScanUnfolds(|mcus|, p, luma, chroma, ScanBits(mcus, p, luma, chroma) + tail);
      ScanDecodes(mcus[1..], DcOf(mcus[0]), luma, chroma, tail);
      assert [mcus[0]] + mcus[1..] == mcus;
    }
  }
}
