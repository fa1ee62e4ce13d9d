/** Scanlines to pixels in place, and the lazy test for an image of one colour. */
module PngImages {
  import opened Common
  import opened PngFilters

  // ---------- Writing pixels ----------

  lemma TimesOne(n: nat, k: nat)
    requires n > 0
    ensures Times(n, k) == k + Times(n - 1, k) && Times(n, k) >= k
  {}

  lemma {:induction false} RowOfRgba(row: seq<Byte>, width: nat)
    requires |row| == Times(width, 4)
    ensures RowRgba(6, row, 4) == row
    decreases width
  {
    if width > 0 {
      RowOfRgba(row[4..], width - 1);
      assert row == row[..4] + row[4..];
    }
  }

  method WritePixel(rgba: array<Byte>, di: nat, p: seq<Byte>)
    requires |p| == 4 && di + 4 <= rgba.Length
    modifies rgba
    ensures rgba[..di + 4] == old(rgba[..di]) + p
  {
    rgba[di], rgba[di + 1], rgba[di + 2], rgba[di + 3] := p[0], p[1], p[2], p[3];
  }

  method CopyRow(raw: array<Byte>, rowOffset: nat, stride: nat, rgba: array<Byte>, di: nat)
    requires raw != rgba && rowOffset + stride <= raw.Length && di + stride <= rgba.Length
    modifies rgba
    ensures rgba[..di + stride] == old(rgba[..di]) + raw[rowOffset..rowOffset + stride]
  {
    ghost var row: seq<Byte> := raw[rowOffset..rowOffset + stride];
    for i := 0 to stride
      invariant rgba[..di + i] == old(rgba[..di]) + row[..i]
    {
      rgba[di + i] := raw[rowOffset + i];
      assert row[..i + 1] == row[..i] + [row[i]];
    }
    assert row[..stride] == row;
  }

  method ConvertRow(raw: array<Byte>, rowOffset: nat, width: nat, colorType: Byte, bpp: nat, rgba: array<Byte>, di: nat)
    requires raw != rgba && BytesPerPixel(colorType) == Some(bpp) && rowOffset + Times(width, bpp) <= raw.Length
    requires di + Times(width, 4) <= rgba.Length
    modifies rgba
    ensures rgba[..di + Times(width, 4)] ==
        old(rgba[..di]) + RowRgba(colorType, raw[rowOffset..rowOffset + Times(width, bpp)], bpp)
  {
    hide Times, RowRgba, Pixel;
    var stride := Times(width, bpp);
    ghost var row: seq<Byte> := raw[rowOffset..rowOffset + stride];
    var si, d := rowOffset, di;
    ghost var left := width;
    ghost var done: seq<Byte> := [];
    while si < rowOffset + stride
      invariant si + Times(left, bpp) == rowOffset + stride && d + Times(left, 4) == di + Times(width, 4) && d >= di
          && si >= rowOffset
      invariant done + RowRgba(colorType, row[si - rowOffset..], bpp) == RowRgba(colorType, row, bpp)
      invariant rgba[..d] == old(rgba[..di]) + done
      decreases left
    {
      LeftIs(left, bpp);
      TimesOne(left, bpp);
      TimesOne(left, 4);
      RowRgbaStep(colorType, row[si - rowOffset..], bpp);
      PieceOf(raw[..], rowOffset, stride, si - rowOffset, bpp);
      assert raw[..][rowOffset..rowOffset + stride] == row && raw[..][si..si + bpp] == raw[si..si + bpp];
      var p: seq<Byte> := Pixel(colorType, raw[si..si + bpp]);
      Regroup(done, p, RowRgba(colorType, row[si - rowOffset + bpp..], bpp));
      Regroup(old(rgba[..di]), done, p);
      WritePixel(rgba, d, p);
      done := done + p;
      si, d, left := si + bpp, d + 4, left - 1;
    }
    NoneLeft(left, bpp);
    RowRgbaEnd(colorType, row[si - rowOffset..], bpp);
    assert done == RowRgba(colorType, row, bpp);
  }

  /** Writes one reconstructed row as RGBA; colour type 6 is copied whole. */
  method WriteRow(raw: array<Byte>, rowOffset: nat, width: nat, colorType: Byte, bpp: nat, rgba: array<Byte>, di: nat)
    requires raw != rgba && BytesPerPixel(colorType) == Some(bpp) && rowOffset + Times(width, bpp) <= raw.Length
    requires di + Times(width, 4) <= rgba.Length
    modifies rgba
    ensures rgba[..di + Times(width, 4)] ==
        old(rgba[..di]) + RowRgba(colorType, raw[rowOffset..rowOffset + Times(width, bpp)], bpp)
  {
    hide Times, RowRgba, Pixel;
    if colorType == 6 {
      RowOfRgba(raw[rowOffset..rowOffset + Times(width, bpp)], width);
      CopyRow(raw, rowOffset, Times(width, bpp), rgba, di);
    } else {
      ConvertRow(raw, rowOffset, width, colorType, bpp, rgba, di);
    }
  }

  lemma PieceOf(raw: seq<Byte>, at: nat, stride: nat, k: nat, bpp: nat)
    requires at + stride <= |raw| && k + bpp <= stride
    ensures raw[at..at + stride][k..][..bpp] == raw[at + k..at + k + bpp]
    ensures raw[at..at + stride][k..][bpp..] == raw[at..at + stride][k + bpp..]
  {}

  lemma LeftIs(left: nat, k: nat)
    requires Times(left, k) > 0
    ensures left > 0
  {}

  lemma NoneLeft(left: nat, k: nat)
    requires Times(left, k) == 0 && k > 0
    ensures left == 0 && Times(left, 4) == 0
  {}

  lemma RowRgbaStep(colorType: Byte, row: seq<Byte>, bpp: nat)
    requires BytesPerPixel(colorType) == Some(bpp) && |row| >= bpp
    ensures RowRgba(colorType, row, bpp) == Pixel(colorType, row[..bpp]) + RowRgba(colorType, row[bpp..], bpp)
  {
    hide Pixel;
  }

  lemma RowRgbaEnd(colorType: Byte, row: seq<Byte>, bpp: nat)
    requires BytesPerPixel(colorType) == Some(bpp) && row == []
    ensures RowRgba(colorType, row, bpp) == []
  {}

  // ---------- The whole image ----------

  lemma RowsEnd(raw: seq<Byte>, prior: seq<Byte>, bpp: nat)
    requires |raw| < |prior| + 1
    ensures Rows(raw, prior, bpp) == []
  {}

  lemma ImageStep(colorType: Byte, row: seq<Byte>, rows: seq<seq<Byte>>, bpp: nat)
    requires BytesPerPixel(colorType) == Some(bpp)
    ensures ImageRgba(colorType, [row] + rows, bpp) == RowRgba(colorType, row, bpp) + ImageRgba(colorType, rows, bpp)
  {
    assert ([row] + rows)[1..] == rows;
    hide RowRgba;
  }

  /** The RGBA bytes an image's scanline data stand for. */
  function Decoded(raw: seq<Byte>, colorType: Byte, stride: nat, bpp: nat): seq<Byte>
    requires BytesPerPixel(colorType) == Some(bpp)
  {
    ImageRgba(colorType, Rows(raw, Zeros(stride), bpp), bpp)
  }

  /** Reconstructs the row at rowOffset and says where its bytes come from. */
  method NextRow(raw: array<Byte>, rowOffset: nat, stride: nat, bpp: nat, ghost was: seq<Byte>, ghost prior: seq<Byte>)
    returns (ghost row: seq<Byte>)
    requires bpp >= 1 && |was| == raw.Length && |prior| == stride && rowOffset >= 1 && rowOffset + stride <= raw.Length
    requires raw[rowOffset - 1..] == was[rowOffset - 1..]
    requires (rowOffset == 1 && prior == Zeros(stride))
        || (rowOffset > stride + 1 && raw[rowOffset - stride - 1..rowOffset - 1] == prior)
    modifies raw
    ensures row == raw[rowOffset..rowOffset + stride] && |row| == stride
    ensures raw[rowOffset + stride..] == was[rowOffset + stride..]
    ensures Rows(was[rowOffset - 1..], prior, bpp) == [row] + Rows(was[rowOffset + stride..], row, bpp)
  {
    hide UnfilterRow, Rows;
    assert PriorRow(raw, rowOffset, stride) == prior;
    assert raw[rowOffset - 1] == raw[rowOffset - 1..][0] == was[rowOffset - 1];
    ghost var filtered: seq<Byte> := raw[rowOffset..rowOffset + stride];
    assert filtered == raw[rowOffset - 1..][1..stride + 1] == was[rowOffset - 1..][1..stride + 1];
    assert raw[rowOffset + stride..] == raw[rowOffset - 1..][stride + 1..] == was[rowOffset + stride..];
    UnfilterPngRow(raw, rowOffset, stride, bpp);
    row := raw[rowOffset..rowOffset + stride];
    RowsStep(was[rowOffset - 1..], prior, bpp);
    assert was[rowOffset - 1..][stride + 1..] == was[rowOffset + stride..];
  }

  method ConvertScanlinesToRgba(raw: array<Byte>, width: nat, height: nat, colorType: Byte, bpp: nat)
      returns (rgba: array<Byte>)
    requires BytesPerPixel(colorType) == Some(bpp) && width > 0 && raw.Length == Times(height, Times(width, bpp) + 1)
    modifies raw
    ensures fresh(rgba) && rgba[..] == Decoded(old(raw[..]), colorType, Times(width, bpp), bpp)
  {
    hide Times, RowRgba, ImageRgba, Rows, UnfilterRow, BytesPerPixel;
    var stride := Times(width, bpp);
    rgba := new Byte[Times(height, Times(width, 4))];
    ghost var was: seq<Byte> := raw[..];
    ghost var total: seq<Byte> := Decoded(was, colorType, stride, bpp);
    ghost var prior: seq<Byte> := Zeros(stride);
    ghost var left := height;
    var rowOffset, di := 1, 0;
    ghost var done: seq<Byte> := [];
    assert was[0..] == was;
    assert bpp >= 1 by { BppPositive(colorType, bpp); }
    StridePositive(width, bpp);
    while rowOffset < raw.Length
      invariant 1 <= rowOffset && rowOffset - 1 + Times(left, stride + 1) == raw.Length && 0 <= di <= rgba.Length
        invariant di + Times(left, Times(width, 4)) == rgba.Length
      invariant |prior| == stride && raw[rowOffset - 1..] == was[rowOffset - 1..]
      invariant (rowOffset == 1 && prior == Zeros(stride))
          || (rowOffset > stride + 1 && raw[rowOffset - stride - 1..rowOffset - 1] == prior)
      invariant done + ImageRgba(colorType, Rows(was[rowOffset - 1..], prior, bpp), bpp) == total && rgba[..di] == done
      decreases left
    {
      RowLeft(left, stride + 1, Times(width, 4));
      ghost var row := NextRow(raw, rowOffset, stride, bpp, was, prior);
      ImageStep(colorType, row, Rows(was[rowOffset + stride..], row, bpp), bpp);
      WriteRow(raw, rowOffset, width, colorType, bpp, rgba, di);
      done := done + RowRgba(colorType, row, bpp);
      prior := row;
      rowOffset, di, left := rowOffset + stride + 1, di + Times(width, 4), left - 1;
    }
    RowLeft(left, stride + 1, Times(width, 4));
    RowsEnd(was[rowOffset - 1..], prior, bpp);
    ImageEnd(colorType, bpp);
    assert rgba[..di] == rgba[..];
  }

  lemma BppPositive(colorType: Byte, bpp: nat)
    requires BytesPerPixel(colorType) == Some(bpp)
    ensures 1 <= bpp <= 4
  {}

  lemma StridePositive(width: nat, bpp: nat)
    requires width > 0 && bpp > 0
    ensures Times(width, bpp) >= 1
  {}

  /** What is left holds a whole row, or nothing. */
  lemma RowLeft(left: nat, k: nat, w: nat)
    requires k > 0
    ensures left > 0 ==>
              && Times(left, k) == k + Times(left - 1, k) && Times(left, w) == w + Times(left - 1, w)
              && Times(left - 1, w) >= 0 && Times(left - 1, k) >= 0
    ensures left == 0 ==> Times(left, k) == 0 && Times(left, w) == 0
  {}

  lemma ImageEnd(colorType: Byte, bpp: nat)
    requires BytesPerPixel(colorType) == Some(bpp)
    ensures ImageRgba(colorType, [], bpp) == []
  {}

  // ---------- One colour ----------

  /** Every whole pixel has these colour values; alpha does not count. */
  predicate Same(rgba: seq<Byte>, red: Byte, green: Byte, blue: Byte)
    decreases |rgba|
  {
    |rgba| < 4 || (rgba[0] == red && rgba[1] == green && rgba[2] == blue && Same(rgba[4..], red, green, blue))
  }

  lemma {:induction false} SameOfBoth(a: seq<Byte>, b: seq<Byte>, k: nat, red: Byte, green: Byte, blue: Byte)
    requires |a| == Times(k, 4)
    ensures Same(a + b, red, green, blue) <==> Same(a, red, green, blue) && Same(b, red, green, blue)
    decreases k
  {
    if k == 0 {
      assert a + b == b;
    } else {
      assert (a + b)[4..] == a[4..] + b;
      SameOfBoth(a[4..], b, k - 1, red, green, blue);
    }
  }

  predicate PixelIs(rgba: seq<Byte>, i: nat, red: Byte, green: Byte, blue: Byte)
    requires 4 * i + 2 < |rgba|
  {
    rgba[4 * i] == red && rgba[4 * i + 1] == green && rgba[4 * i + 2] == blue
  }

  /** The image has pixels and all of them have the colour values of the first. */
  predicate Uniform(rgba: seq<Byte>, width: int, height: int) {
    && width * height > 0 && |rgba| >= width * height * 4
    && forall i :: 0 <= i < width * height ==> PixelIs(rgba, i, rgba[0], rgba[1], rgba[2])
  }

  /** isUniformFrame */
  method IsUniformFrame(rgba: seq<Byte>, width: int, height: int) returns (uniform: bool)
    ensures uniform <==> Uniform(rgba, width, height)
  {
    var pixels := width * height;
    if pixels <= 0 || |rgba| < pixels * 4 {
      return false;
    }
    for i := 0 to pixels
      invariant forall k :: 0 <= k < i ==> PixelIs(rgba, k, rgba[0], rgba[1], rgba[2])
    {
      if rgba[4 * i] != rgba[0] || rgba[4 * i + 1] != rgba[1] || rgba[4 * i + 2] != rgba[2] {
        assert !PixelIs(rgba, i, rgba[0], rgba[1], rgba[2]);
        return false;
      }
    }
    uniform := true;
  }

  lemma {:induction false} SameIs(rgba: seq<Byte>, n: nat, red: Byte, green: Byte, blue: Byte)
    requires |rgba| == 4 * n
    ensures Same(rgba, red, green, blue) <==> forall i :: 0 <= i < n ==> PixelIs(rgba, i, red, green, blue)
    decreases n
  {
    if n > 0 {
      var rest := rgba[4..];
      SameIs(rest, n - 1, red, green, blue);
      forall i | 0 < i < n ensures PixelIs(rgba, i, red, green, blue) == PixelIs(rest, i - 1, red, green, blue) {
      }
      assert Same(rgba, red, green, blue) <==> PixelIs(rgba, 0, red, green, blue) && Same(rest, red, green, blue);
      hide PixelIs, Same;
      if Same(rest, red, green, blue) {
        forall i | 0 < i < n ensures PixelIs(rgba, i, red, green, blue) {
          assert PixelIs(rest, i - 1, red, green, blue);
        }
      } else {
        var j :| 0 <= j < n - 1 && !PixelIs(rest, j, red, green, blue);
        assert PixelIs(rgba, j + 1, red, green, blue) == PixelIs(rest, j + 1 - 1, red, green, blue);
      }
    }
  }

  lemma {:induction false} ImageLength(colorType: Byte, rows: seq<seq<Byte>>, bpp: nat, width: nat)
    requires BytesPerPixel(colorType) == Some(bpp) && forall r :: r in rows ==> |r| == Times(width, bpp)
    ensures |ImageRgba(colorType, rows, bpp)| == Times(|rows|, Times(width, 4))
  {
    if rows != [] {
      hide RowRgba;
      RowRgbaLength(colorType, rows[0], bpp, width);
      ImageLength(colorType, rows[1..], bpp, width);
    }
  }

  lemma {:induction false} RowsShape(raw: seq<Byte>, prior: seq<Byte>, bpp: nat, height: nat)
    requires |raw| == Times(height, |prior| + 1)
    ensures |Rows(raw, prior, bpp)| == height && forall r :: r in Rows(raw, prior, bpp) ==> |r| == |prior|
    decreases height
  {
    if height > 0 {
      hide UnfilterRow;
      RowsShape(raw[|prior| + 1..], UnfilterRow(raw[0], prior, raw[1..|prior| + 1], bpp), bpp, height - 1);
    }
  }

  predicate Grayscale(colorType: Byte) {
    colorType == 0 || colorType == 4
  }

  /** Compares one reconstructed row, pixel by pixel, without converting it. */
  method RowIsUniform(raw: array<Byte>, rowOffset: nat, width: nat, colorType: Byte, bpp: nat, red: Byte, green: Byte,
      blue: Byte)
    returns (same: bool)
    requires BytesPerPixel(colorType) == Some(bpp) && rowOffset + Times(width, bpp) <= raw.Length
    requires Grayscale(colorType) ==> green == red && blue == red
    ensures same == Same(RowRgba(colorType, raw[rowOffset..rowOffset + Times(width, bpp)], bpp), red, green, blue)
  {
    hide Times, RowRgba, Same;
    var stride := Times(width, bpp);
    ghost var row: seq<Byte> := raw[rowOffset..rowOffset + stride];
    var offset := rowOffset;
    ghost var left := width;
    assert row[0..] == row;
    while offset < rowOffset + stride
      invariant rowOffset <= offset && offset + Times(left, bpp) == rowOffset + stride
      invariant Same(RowRgba(colorType, row, bpp), red, green, blue) ==
                Same(RowRgba(colorType, row[offset - rowOffset..], bpp), red, green, blue)
      decreases left
    {
      LeftIs(left, bpp);
      TimesOne(left, bpp);
      ghost var rest: seq<Byte> := row[offset - rowOffset..];
      RowRgbaStep(colorType, rest, bpp);
      PieceOf(raw[..], rowOffset, stride, offset - rowOffset, bpp);
      assert raw[..][rowOffset..rowOffset + stride] == row
          && raw[..][offset..offset + bpp] == raw[offset..offset + bpp];
      PixelSame(colorType, raw[offset..offset + bpp], RowRgba(colorType, rest[bpp..], bpp), red, green, blue);
      if raw[offset] != red || (!Grayscale(colorType) && (raw[offset + 1] != green || raw[offset + 2] != blue)) {
        return false;
      }
      offset, left := offset + bpp, left - 1;
    }
    NoneLeft(left, bpp);
    RowRgbaEnd(colorType, row[offset - rowOffset..], bpp);
    NothingSame(red, green, blue);
    same := true;
  }

  lemma NothingSame(red: Byte, green: Byte, blue: Byte)
    ensures Same([], red, green, blue)
  {}

  lemma PixelSame(colorType: Byte, px: seq<Byte>, more: seq<Byte>, red: Byte, green: Byte, blue: Byte)
    requires BytesPerPixel(colorType) == Some(|px|) && (Grayscale(colorType) ==> green == red && blue == red)
    ensures Same(Pixel(colorType, px) + more, red, green, blue) <==>
              (px[0] == red && (Grayscale(colorType) || (px[1] == green && px[2] == blue)))
                  && Same(more, red, green, blue)
  {
    var all := Pixel(colorType, px) + more;
    assert all[4..] == more;
    assert all[0] == px[0] && all[1] == (if Grayscale(colorType) then px[0] else px[1])
        && all[2] == (if Grayscale(colorType) then px[0] else px[2]);
  }

  /** Reconstructs the first row and takes the colour of its first pixel. */
  method FirstColours(raw: array<Byte>, width: nat, colorType: Byte, bpp: nat)
    returns (red: Byte, green: Byte, blue: Byte, ghost row: seq<Byte>)
    requires BytesPerPixel(colorType) == Some(bpp) && width > 0 && Times(width, bpp) + 1 <= raw.Length
    modifies raw
    ensures |row| == Times(width, bpp) && row == raw[1..Times(width, bpp) + 1]
    ensures raw[Times(width, bpp) + 1..] == old(raw[Times(width, bpp) + 1..])
    ensures Decoded(old(raw[..]), colorType, Times(width, bpp), bpp) ==
            RowRgba(colorType, row, bpp) + ImageRgba(colorType, Rows(old(raw[..])[Times(width, bpp) + 1..], row, bpp),
                bpp)
    ensures Grayscale(colorType) ==> green == red && blue == red
    ensures |RowRgba(colorType, row, bpp)| >= 4 && RowRgba(colorType, row, bpp)[0] == red
            && RowRgba(colorType, row, bpp)[1] == green && RowRgba(colorType, row, bpp)[2] == blue
  {
    hide Times, RowRgba, ImageRgba, Rows, UnfilterRow, BytesPerPixel, Grayscale;
    var stride := Times(width, bpp);
    ghost var was: seq<Byte> := raw[..];
    assert was[0..] == was;
    BppPositive(colorType, bpp);
    StridePositive(width, bpp);
    row := NextRow(raw, 1, stride, bpp, was, Zeros(stride));
    ImageStep(colorType, row, Rows(was[stride + 1..], row, bpp), bpp);
    red := raw[1];
    assert red == row[0];
    green, blue := red, red;
    if colorType != 0 && colorType != 4 {
      ColourBytes(colorType, bpp, width);
      green, blue := raw[2], raw[3];
      assert green == row[1] && blue == row[2];
    }
    ColoursAre(colorType, row, bpp, width, red, green, blue);
  }

  /** The row-by-row test that stops at the first other colour: on every image it says what the whole decoded image
      would. */
  method IsUniformRaw(raw: array<Byte>, width: nat, height: nat, colorType: Byte, bpp: nat) returns (uniform: bool)
    requires BytesPerPixel(colorType) == Some(bpp) && width > 0 && height > 0
    requires raw.Length == Times(height, Times(width, bpp) + 1)
    modifies raw
    ensures uniform <==> Uniform(Decoded(old(raw[..]), colorType, Times(width, bpp), bpp), width, height)
  {
    hide Times, RowRgba, ImageRgba, Rows, UnfilterRow, BytesPerPixel, Same, Uniform, Grayscale, Decoded;
    var stride := Times(width, bpp);
    ghost var was: seq<Byte> := raw[..];
    ghost var total: seq<Byte> := Decoded(was, colorType, stride, bpp);
    ghost var prior: seq<Byte> := Zeros(stride);
    BppPositive(colorType, bpp);
    StridePositive(width, bpp);
    RowLeft(height, stride + 1, Times(width, 4));
    var red, green, blue;
    ghost var row;
    red, green, blue, row := FirstColours(raw, width, colorType, bpp);
    UniformIsSame(was, colorType, width, height, bpp, red, green, blue);
    ghost var left := height;
    var rowOffset := 1;
    while rowOffset < raw.Length
      invariant 1 <= rowOffset && rowOffset - 1 + Times(left, stride + 1) == raw.Length && |prior| == stride
      invariant rowOffset == 1 ==>
                  && |row| == stride && raw[1..stride + 1] == row && raw[stride + 1..] == was[stride + 1..]
                  && total == RowRgba(colorType, row, bpp)
                              + ImageRgba(colorType, Rows(was[stride + 1..], row, bpp), bpp)
      invariant rowOffset > 1 ==> rowOffset > stride + 1 && raw[rowOffset - 1..] == was[rowOffset - 1..]
                                  && raw[rowOffset - stride - 1..rowOffset - 1] == prior
      invariant rowOffset > 1 ==> (Same(total, red, green, blue) <==>
                                   Same(ImageRgba(colorType, Rows(was[rowOffset - 1..], prior, bpp), bpp), red, green,
                                       blue))
      decreases left
    {
      RowLeft(left, stride + 1, Times(width, 4));
      if rowOffset != 1 {
        row := NextRow(raw, rowOffset, stride, bpp, was, prior);
        ImageStep(colorType, row, Rows(was[rowOffset + stride..], row, bpp), bpp);
      }
      RowRgbaLength(colorType, row, bpp, width);
      SameOfBoth(RowRgba(colorType, row, bpp), ImageRgba(colorType, Rows(was[rowOffset + stride..], row, bpp), bpp),
          width, red, green, blue);
      var same := RowIsUniform(raw, rowOffset, width, colorType, bpp, red, green, blue);
      if !same {
        return false;
      }
      prior := row;
      rowOffset, left := rowOffset + stride + 1, left - 1;
    }
    RowLeft(left, stride + 1, Times(width, 4));
    RowsEnd(was[rowOffset - 1..], prior, bpp);
    ImageEnd(colorType, bpp);
    NothingSame(red, green, blue);
    uniform := true;
  }

  lemma ColourBytes(colorType: Byte, bpp: nat, width: nat)
    requires BytesPerPixel(colorType) == Some(bpp) && width > 0 && colorType != 0 && colorType != 4
    ensures Times(width, bpp) >= 3
  {}

  lemma FirstPixel(colorType: Byte, row: seq<Byte>, bpp: nat, width: nat)
    requires BytesPerPixel(colorType) == Some(bpp) && width > 0 && |row| == Times(width, bpp)
    ensures |row| >= 1 && |RowRgba(colorType, row, bpp)| >= 4
    ensures RowRgba(colorType, row, bpp)[..4] == Pixel(colorType, row[..bpp])
  {
    TimesOne(width, bpp);
  }

  lemma ColoursAre(colorType: Byte, row: seq<Byte>, bpp: nat, width: nat, red: Byte, green: Byte, blue: Byte)
    requires BytesPerPixel(colorType) == Some(bpp) && width > 0 && |row| == Times(width, bpp) && red == row[0]
    requires if colorType == 0 || colorType == 4 then green == red && blue == red
        else |row| >= 3 && green == row[1] && blue == row[2]
    ensures Grayscale(colorType) ==> green == red && blue == red
    ensures |RowRgba(colorType, row, bpp)| >= 4 && RowRgba(colorType, row, bpp)[0] == red
            && RowRgba(colorType, row, bpp)[1] == green && RowRgba(colorType, row, bpp)[2] == blue
  {
    FirstPixel(colorType, row, bpp, width);
    var all := RowRgba(colorType, row, bpp);
    hide RowRgba, Times;
    assert all[0] == all[..4][0] && all[1] == all[..4][1] && all[2] == all[..4][2];
  }

  lemma UniformIsSame(was: seq<Byte>, colorType: Byte, width: nat, height: nat, bpp: nat, red: Byte, green: Byte,
      blue: Byte)
    requires BytesPerPixel(colorType) == Some(bpp) && width > 0 && height > 0
        && |was| == Times(height, Times(width, bpp) + 1)
    requires var total := Decoded(was, colorType, Times(width, bpp), bpp);
             |total| >= 4 && total[0] == red && total[1] == green && total[2] == blue
    ensures var total := Decoded(was, colorType, Times(width, bpp), bpp);
            Uniform(total, width, height) <==> Same(total, red, green, blue)
  {
    var stride := Times(width, bpp);
    var total := Decoded(was, colorType, stride, bpp);
    DecodedLength(was, colorType, width, height, bpp);
    assert width * height > 0;
    hide Decoded, Times, Same;
    SameIs(total, width * height, red, green, blue);
  }

  lemma DecodedLength(was: seq<Byte>, colorType: Byte, width: nat, height: nat, bpp: nat)
    requires BytesPerPixel(colorType) == Some(bpp) && |was| == Times(height, Times(width, bpp) + 1)
    ensures |Decoded(was, colorType, Times(width, bpp), bpp)| == width * height * 4
  {
    hide Rows, ImageRgba, Times, BytesPerPixel;
    var stride := Times(width, bpp);
    RowsShape(was, Zeros(stride), bpp, height);
    ImageLength(colorType, Rows(was, Zeros(stride), bpp), bpp, width);
    PixelBytes(width, height);
  }

  lemma PixelBytes(width: nat, height: nat)
    ensures Times(height, Times(width, 4)) == width * height * 4
  {
    TimesIs(height, Times(width, 4));
    TimesIs(width, 4);
    assert height * (width * 4) == (height * width) * 4;
  }
}
