/** PNG row filters and pixel conversion: reconstruction in place undoes filtering (RFC 2083, section 6). */
module PngFilters {
  import opened Common

  // ---------- Filters ----------

  function Abs(x: int): nat {
    if x < 0 then -x else x
  }

  /** The neighbour nearest to left + up - upper left, ties going to left, then up (section 6.6). */
  function Paeth(a: int, b: int, c: int): int {
    var p := a + b - c;
    if Abs(p - a) <= Abs(p - b) && Abs(p - a) <= Abs(p - c) then a
    else if Abs(p - b) <= Abs(p - c) then b
    else c
  }

  function Predict(filter: Byte, left: Byte, up: Byte, upLeft: Byte): int {
    if filter == 0 then 0
    else if filter == 1 then left
    else if filter == 2 then up
    else if filter == 3 then (left + up) / 2
    else Paeth(left, up, upLeft)
  }

  /** The byte bpp places before n, or zero at the edge. */
  function Back(row: seq<Byte>, n: int, bpp: nat): Byte
    requires n <= |row|
  {
    if bpp >= 1 && n >= bpp then row[n - bpp] else 0
  }

  function Mod(x: int): Byte {
    x % 256
  }

  /** The filtered form of a row, as the standard defines it on the true bytes. */
  function FilterRow(filter: Byte, prior: seq<Byte>, row: seq<Byte>, bpp: nat): (r: seq<Byte>)
    requires |prior| == |row|
    ensures |r| == |row|
  {
    seq(|row|, n requires 0 <= n < |row| => Mod(row[n] - Predict(filter, Back(row, n, bpp), prior[n],
        Back(prior, n, bpp))))
  }

  /** Reconstruction from the bytes already reconstructed. */
  function UnfilterRow(filter: Byte, prior: seq<Byte>, row: seq<Byte>, bpp: nat): (r: seq<Byte>)
    requires |prior| == |row|
    ensures |r| == |row|
  {
    if row == [] then [] else
    var n := |row| - 1;
    var done := UnfilterRow(filter, prior[..n], row[..n], bpp);
    done + [Mod(row[n] + Predict(filter, Back(done, n, bpp), prior[n], Back(prior, n, bpp)))]
  }

  lemma ModIs(x: Byte, y: int, q: int)
    requires y == x - 256 * q
    ensures Mod(y) == x
  {}

  lemma ModUndoes(x: Byte, p: int)
    ensures Mod(Mod(x - p) + p) == x
    ensures Mod(Mod(x + p) - p) == x
  {
    var a, b := Mod(x - p), Mod(x + p);
    assert a == x - p - 256 * ((x - p) / 256);
    assert b == x + p - 256 * ((x + p) / 256);
    ModIs(x, a + p, (x - p) / 256);
    ModIs(x, b - p, (x + p) / 256);
  }

  lemma BackFront(row: seq<Byte>, n: nat, bpp: nat)
    requires n <= |row|
    ensures Back(row[..n], n, bpp) == Back(row, n, bpp)
  {}

  lemma UnfilterOneMore(filter: Byte, prior: seq<Byte>, row: seq<Byte>, bpp: nat, x: nat)
    requires |prior| == |row| && x < |row|
    ensures var done := UnfilterRow(filter, prior[..x], row[..x], bpp);
            UnfilterRow(filter, prior[..x + 1], row[..x + 1], bpp) ==
            done + [Mod(row[x] + Predict(filter, Back(done, x, bpp), prior[x], Back(prior, x, bpp)))]
  {
    hide Predict, Mod;
    assert prior[..x + 1][..x] == prior[..x] && row[..x + 1][..x] == row[..x];
    BackFront(prior, x, bpp);
    assert Back(prior[..x + 1], x, bpp) == Back(prior, x, bpp);
  }

  lemma {:induction false} UnfilterFront(filter: Byte, prior: seq<Byte>, row: seq<Byte>, bpp: nat, n: nat)
    requires |prior| == |row| && n <= |row|
    ensures UnfilterRow(filter, prior, row, bpp)[..n] == UnfilterRow(filter, prior[..n], row[..n], bpp)
    decreases |row| - n
  {
    hide Predict, Mod, Back;
    if n == |row| {
      assert prior[..n] == prior && row[..n] == row;
    } else {
      UnfilterFront(filter, prior, row, bpp, n + 1);
      UnfilterOneMore(filter, prior, row, bpp, n);
      hide UnfilterRow;
      var full := UnfilterRow(filter, prior, row, bpp);
      assert full[..n] == full[..n + 1][..n];
    }
  }

  lemma {:induction false} UnfilterUndoesFront(filter: Byte, prior: seq<Byte>, row: seq<Byte>, bpp: nat, n: nat)
    requires |prior| == |row| && n <= |row|
    ensures UnfilterRow(filter, prior[..n], FilterRow(filter, prior, row, bpp)[..n], bpp) == row[..n]
  {
    hide Predict, Mod, Back;
    if n > 0 {
      var x, filtered := n - 1, FilterRow(filter, prior, row, bpp);
      UnfilterUndoesFront(filter, prior, row, bpp, x);
      UnfilterOneMore(filter, prior, filtered, bpp, x);
      BackFront(row, x, bpp);
      ModUndoes(row[x], Predict(filter, Back(row, x, bpp), prior[x], Back(prior, x, bpp)));
      assert filtered[x] == Mod(row[x] - Predict(filter, Back(row, x, bpp), prior[x], Back(prior, x, bpp)));
      hide UnfilterRow, FilterRow;
      assert row[..n] == row[..x] + [row[x]];
    }
  }

  lemma {:induction false} UnfilterUndoesFilter(filter: Byte, prior: seq<Byte>, row: seq<Byte>, bpp: nat)
    requires |prior| == |row|
    ensures UnfilterRow(filter, prior, FilterRow(filter, prior, row, bpp), bpp) == row
  {
    hide UnfilterRow, FilterRow;
    UnfilterUndoesFront(filter, prior, row, bpp, |row|);
    var filtered := FilterRow(filter, prior, row, bpp);
    assert prior[..|row|] == prior && filtered[..|row|] == filtered && row[..|row|] == row;
  }

  /** Filtering what was reconstructed gives the same filtered bytes: reconstruction loses nothing. */
  lemma {:induction false} FilterUndoesUnfilter(filter: Byte, prior: seq<Byte>, row: seq<Byte>, bpp: nat)
    requires |prior| == |row|
    ensures FilterRow(filter, prior, UnfilterRow(filter, prior, row, bpp), bpp) == row
  {
    hide Predict, Mod, Back, UnfilterRow;
    var full := UnfilterRow(filter, prior, row, bpp);
    forall n | 0 <= n < |row| ensures FilterRow(filter, prior, full, bpp)[n] == row[n] {
      UnfilterFront(filter, prior, row, bpp, n);
      UnfilterFront(filter, prior, row, bpp, n + 1);
      UnfilterOneMore(filter, prior, row, bpp, n);
      BackFront(full, n, bpp);
      assert full[n] == full[..n + 1][n];
      ModUndoes(row[n], Predict(filter, Back(full, n, bpp), prior[n], Back(prior, n, bpp)));
    }
  }

  // ---------- Images ----------

  function Zeros(n: nat): (z: seq<Byte>)
    ensures |z| == n
  {
    seq(n, i => 0)
  }

  /** The scanline data of an image, each row under its own filter. */
  function Stream(rows: seq<seq<Byte>>, filters: seq<Byte>, prior: seq<Byte>, bpp: nat): seq<Byte>
    requires |filters| == |rows| && forall r :: r in rows ==> |r| == |prior|
  {
    if rows == [] then [] else
    [filters[0]] + FilterRow(filters[0], prior, rows[0], bpp) + Stream(rows[1..], filters[1..], rows[0], bpp)
  }

  /** The true rows of scanline data, given the row before. */
  function Rows(raw: seq<Byte>, prior: seq<Byte>, bpp: nat): seq<seq<Byte>>
    decreases |raw|
  {
    if |raw| < |prior| + 1 then [] else
    var row := UnfilterRow(raw[0], prior, raw[1..|prior| + 1], bpp);
    [row] + Rows(raw[|prior| + 1..], row, bpp)
  }

  lemma RowsStep(raw: seq<Byte>, prior: seq<Byte>, bpp: nat)
    requires |raw| >= |prior| + 1
    ensures var row := UnfilterRow(raw[0], prior, raw[1..|prior| + 1], bpp);
            Rows(raw, prior, bpp) == [row] + Rows(raw[|prior| + 1..], row, bpp)
  {
    hide UnfilterRow;
  }

  lemma RowsOfPieces(filter: Byte, first: seq<Byte>, rest: seq<Byte>, prior: seq<Byte>, bpp: nat)
    requires |first| == |prior|
    ensures var row := UnfilterRow(filter, prior, first, bpp);
            Rows([filter] + first + rest, prior, bpp) == [row] + Rows(rest, row, bpp)
  {
    var raw: seq<Byte> := [filter] + first + rest;
    assert raw[0] == filter && raw[1..|prior| + 1] == first && raw[|prior| + 1..] == rest;
    hide Rows, UnfilterRow;
    RowsStep(raw, prior, bpp);
  }

  lemma StreamStep(rows: seq<seq<Byte>>, filters: seq<Byte>, prior: seq<Byte>, bpp: nat)
    requires rows != [] && |filters| == |rows| && forall r :: r in rows ==> |r| == |prior|
    ensures Stream(rows, filters, prior, bpp) ==
            [filters[0]] + FilterRow(filters[0], prior, rows[0], bpp) + Stream(rows[1..], filters[1..], rows[0], bpp)
  {
    hide FilterRow;
  }

  /** For every image, bytes per pixel and choice of filters, the rows come back. */
  lemma {:induction false} RowsUndoStream(rows: seq<seq<Byte>>, filters: seq<Byte>, prior: seq<Byte>, bpp: nat)
    requires |filters| == |rows| && forall r :: r in rows ==> |r| == |prior|
    ensures Rows(Stream(rows, filters, prior, bpp), prior, bpp) == rows
    decreases |rows|
  {
    if rows != [] {
      hide FilterRow, UnfilterRow, Stream, Rows;
      UnfilterUndoesFilter(filters[0], prior, rows[0], bpp);
      StreamStep(rows, filters, prior, bpp);
      RowsOfPieces(filters[0], FilterRow(filters[0], prior, rows[0], bpp),
          Stream(rows[1..], filters[1..], rows[0], bpp), prior, bpp);
      RowsUndoStream(rows[1..], filters[1..], rows[0], bpp);
      assert rows == [rows[0]] + rows[1..];
    }
  }

  // ---------- Pixels ----------

  /** Bytes per pixel of a colour type. */
  function BytesPerPixel(colorType: Byte): Option<nat> {
    if colorType == 6 then Some(4)
    else if colorType == 2 then Some(3)
    else if colorType == 0 then Some(1)
    else if colorType == 4 then Some(2)
    else None
  }

  function Pixel(colorType: Byte, px: seq<Byte>): (p: seq<Byte>)
    requires BytesPerPixel(colorType) == Some(|px|)
    ensures |p| == 4
  {
    if colorType == 6 then px
    else if colorType == 2 then px + [255]
    else if colorType == 0 then [px[0], px[0], px[0], 255]
    else [px[0], px[0], px[0], px[1]]
  }

  function RowRgba(colorType: Byte, row: seq<Byte>, bpp: nat): seq<Byte>
    requires BytesPerPixel(colorType) == Some(bpp)
    decreases |row|
  {
    if |row| < bpp then [] else Pixel(colorType, row[..bpp]) + RowRgba(colorType, row[bpp..], bpp)
  }

  function ImageRgba(colorType: Byte, rows: seq<seq<Byte>>, bpp: nat): seq<Byte>
    requires BytesPerPixel(colorType) == Some(bpp)
  {
    if rows == [] then [] else RowRgba(colorType, rows[0], bpp) + ImageRgba(colorType, rows[1..], bpp)
  }

  /** n copies of k, added up. */
  function Times(n: nat, k: nat): nat {
    if n == 0 then 0 else k + Times(n - 1, k)
  }

  lemma {:induction false} TimesIs(n: nat, k: nat)
    ensures Times(n, k) == n * k
  {
    if n > 0 {
      TimesIs(n - 1, k);
    }
  }

  lemma {:induction false} RowRgbaLength(colorType: Byte, row: seq<Byte>, bpp: nat, width: nat)
    requires BytesPerPixel(colorType) == Some(bpp) && |row| == Times(width, bpp)
    ensures |RowRgba(colorType, row, bpp)| == Times(width, 4)
    decreases width
  {
    if width > 0 {
      RowRgbaLength(colorType, row[bpp..], bpp, width - 1);
    }
  }

  // ---------- In place ----------

  method PaethPredictor(a: int, b: int, c: int) returns (r: int)
    ensures r == Paeth(a, b, c)
    ensures r == a || r == b || r == c
    ensures Abs(a + b - c - r) <= Abs(a + b - c - a) && Abs(a + b - c - r) <= Abs(a + b - c - b)
        && Abs(a + b - c - r) <= Abs(a + b - c - c)
  {
    var p := a + b - c;
    var pa, pb, pc := Abs(p - a), Abs(p - b), Abs(p - c);
    if pa <= pb && pa <= pc {
      return a;
    }
    if pb <= pc {
      return b;
    }
    r := c;
  }

  /** The true bytes of the row before, or zeros before the first row. */
  ghost function PriorRow(raw: array<Byte>, rowOffset: nat, stride: nat): (r: seq<Byte>)
    requires stride + 1 <= rowOffset <= raw.Length || rowOffset == 1
    reads raw
    ensures |r| == stride
  {
    if rowOffset > stride + 1 then raw[rowOffset - stride - 1..rowOffset - 1] else Zeros(stride)
  }

  lemma {:induction false} UnfilterNone(prior: seq<Byte>, row: seq<Byte>, bpp: nat)
    requires |prior| == |row|
    ensures UnfilterRow(0, prior, row, bpp) == row
  {
    if row != [] {
      UnfilterNone(prior[..|row| - 1], row[..|row| - 1], bpp);
    }
  }

  method PredictorAt(raw: array<Byte>, rowOffset: nat, stride: nat, bpp: nat, filter: Byte, x: nat,
                     ghost prior: seq<Byte>, ghost done: seq<Byte>)
    returns (predictor: int)
    requires bpp >= 1 && (rowOffset == 1 || rowOffset > stride + 1) && rowOffset + stride <= raw.Length
    requires x < stride == |prior| && |done| == x
        && (forall k :: rowOffset <= k < rowOffset + x ==> raw[k] == done[k - rowOffset])
    requires forall i :: 0 <= i < stride ==> prior[i] == if rowOffset > stride + 1
        then raw[rowOffset - stride - 1 + i] else 0
    ensures predictor == Predict(filter, Back(done, x, bpp), prior[x], Back(prior, x, bpp))
  {
    hide Predict;
    var left: Byte := if x >= bpp then raw[rowOffset + x - bpp] else 0;
    var up: Byte := if rowOffset > stride + 1 then raw[rowOffset - stride - 1 + x] else 0;
    var upLeft: Byte := if rowOffset > stride + 1 && x >= bpp then raw[rowOffset - stride - 1 + x - bpp] else 0;
    assert x >= bpp ==> left == done[x - bpp] && upLeft == prior[x - bpp];
    predictor := Predict(filter, left, up, upLeft);
  }

  method ReconstructRow(raw: array<Byte>, rowOffset: nat, stride: nat, bpp: nat, filter: Byte, ghost prior: seq<Byte>,
      ghost row: seq<Byte>)
    requires bpp >= 1 && (rowOffset == 1 || rowOffset > stride + 1) && rowOffset + stride <= raw.Length
    requires |prior| == |row| == stride && forall k :: rowOffset <= k < rowOffset + stride ==>
        raw[k] == row[k - rowOffset]
    requires forall i :: 0 <= i < stride ==> prior[i] == if rowOffset > stride + 1
        then raw[rowOffset - stride - 1 + i] else 0
    modifies raw
    ensures forall k :: 0 <= k < raw.Length && !(rowOffset <= k < rowOffset + stride) ==> raw[k] == old(raw[k])
    ensures forall k :: rowOffset <= k < rowOffset + stride ==>
        raw[k] == UnfilterRow(filter, prior, row, bpp)[k - rowOffset]
  {
    hide UnfilterRow, Predict, Mod, Back;
    ghost var done: seq<Byte> := [];
    assert prior[..0] == [] && row[..0] == [];
    UnfilterStart(filter, bpp);
    for x := 0 to stride
      invariant done == UnfilterRow(filter, prior[..x], row[..x], bpp) && |done| == x
      invariant forall k :: 0 <= k < raw.Length && !(rowOffset <= k < rowOffset + x) ==> raw[k] == old(raw[k])
      invariant forall k :: rowOffset <= k < rowOffset + x ==> raw[k] == done[k - rowOffset]
      invariant forall i :: 0 <= i < stride ==> prior[i] == if rowOffset > stride + 1
          then raw[rowOffset - stride - 1 + i] else 0
    {
      var predictor := PredictorAt(raw, rowOffset, stride, bpp, filter, x, prior, done);
      UnfilterOneMore(filter, prior, row, bpp, x);
      var byte: Byte := Mod(raw[rowOffset + x] + predictor);
      assert raw[rowOffset + x] == row[x];
      raw[rowOffset + x] := byte;
      done := done + [byte];
    }
    assert prior[..stride] == prior && row[..stride] == row;
  }

  /** Reconstructs one row in place from its filter byte, the row before it and its own earlier bytes. */
  method UnfilterPngRow(raw: array<Byte>, rowOffset: nat, stride: nat, bpp: nat)
    requires bpp >= 1 && (rowOffset == 1 || rowOffset > stride + 1) && rowOffset + stride <= raw.Length
    modifies raw
    ensures raw[rowOffset..rowOffset + stride] ==
            UnfilterRow(old(raw[rowOffset - 1]), old(PriorRow(raw, rowOffset, stride)),
                old(raw[rowOffset..rowOffset + stride]), bpp)
    ensures raw[..rowOffset] == old(raw[..rowOffset]) && raw[rowOffset + stride..] == old(raw[rowOffset + stride..])
  {
    hide UnfilterRow;
    var filter := raw[rowOffset - 1];
    ghost var prior: seq<Byte> := PriorRow(raw, rowOffset, stride);
    ghost var row: seq<Byte> := raw[rowOffset..rowOffset + stride];
    if filter == 0 {
      UnfilterNone(prior, row, bpp);
      return;
    }
    ReconstructRow(raw, rowOffset, stride, bpp, filter, prior, row);
    SliceIs(raw[..], rowOffset, UnfilterRow(filter, prior, row, bpp));
    assert raw[..][rowOffset..rowOffset + stride] == raw[rowOffset..rowOffset + stride];
  }

  lemma SliceIs(s: seq<Byte>, at: nat, piece: seq<Byte>)
    requires at + |piece| <= |s| && forall k :: at <= k < at + |piece| ==> s[k] == piece[k - at]
    ensures s[at..at + |piece|] == piece
  {}

  lemma UnfilterStart(filter: Byte, bpp: nat)
    ensures UnfilterRow(filter, [], [], bpp) == []
  {}
}
