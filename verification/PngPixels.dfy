/** What reconstruction and conversion make of every single byte and pixel, as the PNG standard tells it. */
module PngPixels {
  import opened Common
  import opened PngFilters
  import opened PngImages

  // ---------- Filters (RFC 2083, section 6) ----------

  /** Of left, up and upper left, in this order, the first that is nearest to left + up - upper left. */
  predicate IsNearest(left: int, up: int, upLeft: int, g: int) {
    var fromLeft, fromUp, fromUpLeft := Distance(up, upLeft), Distance(left, upLeft), Distance(left + up, 2 * upLeft);
    && (g == left || g == up || g == upLeft)
    && (fromLeft <= fromUp && fromLeft <= fromUpLeft ==> g == left)
    && (fromUp < fromLeft && fromUp <= fromUpLeft ==> g == up)
    && (fromUpLeft < fromLeft && fromUpLeft < fromUp ==> g == upLeft)
  }

  function Distance(a: int, b: int): int {
    if a <= b then b - a else a - b
  }

  /** A byte restored from its filtered form and its three restored neighbours. */
  ghost predicate Restored(filter: Byte, left: int, up: int, upLeft: int, filtered: int, b: int) {
    && (filter == 0 ==> b == filtered)
    && (filter == 1 ==> b == (filtered + left) % 256)
    && (filter == 2 ==> b == (filtered + up) % 256)
    && (filter == 3 ==> b == (filtered + (left + up) / 2) % 256)
    && (filter == 4 ==> exists g :: IsNearest(left, up, upLeft, g) && b == (filtered + g) % 256)
  }

  lemma PaethIsNearest(a: int, b: int, c: int)
    ensures IsNearest(a, b, c, Paeth(a, b, c))
  {}

  lemma PredictRestores(filter: Byte, left: Byte, up: Byte, upLeft: Byte, filtered: Byte)
    ensures Restored(filter, left, up, upLeft, filtered, Mod(filtered + Predict(filter, left, up, upLeft)))
  {
    PaethIsNearest(left, up, upLeft);
    hide Paeth, IsNearest;
  }

  /** Every byte of a reconstructed row comes from its filtered byte and the restored bytes before and above it; off
      the edges there are zeros. */
  lemma {:induction false} EveryByteRestored(filter: Byte, prior: seq<Byte>, row: seq<Byte>, bpp: nat, n: nat)
    requires |prior| == |row| && bpp >= 1 && n < |row|
    ensures var r := UnfilterRow(filter, prior, row, bpp);
            Restored(filter, if n >= bpp then r[n - bpp] else 0, prior[n], if n >= bpp then prior[n - bpp] else 0,
                row[n], r[n])
  {
    var r := UnfilterRow(filter, prior, row, bpp);
    UnfilterFront(filter, prior, row, bpp, n);
    UnfilterFront(filter, prior, row, bpp, n + 1);
    UnfilterOneMore(filter, prior, row, bpp, n);
    hide UnfilterRow, Restored, Predict, Mod;
    assert r[n] == r[..n + 1][n];
    PredictRestores(filter, Back(r[..n], n, bpp), prior[n], Back(prior, n, bpp), row[n]);
  }

  // ---------- Pixels ----------

  /** Four bytes show a pixel: red, green, blue and alpha as they are, opaque where no alpha was given, and grey in all
      three colours. */
  predicate Shows(colorType: Byte, px: seq<Byte>, rgba: seq<Byte>) {
    && |rgba| == 4
    && (colorType == 0 ==> |px| == 1 && rgba[0] == rgba[1] == rgba[2] == px[0] && rgba[3] == 255)
    && (colorType == 2 ==> |px| == 3 && rgba[0] == px[0] && rgba[1] == px[1] && rgba[2] == px[2] && rgba[3] == 255)
    && (colorType == 4 ==> |px| == 2 && rgba[0] == rgba[1] == rgba[2] == px[0] && rgba[3] == px[1])
    && (colorType == 6 ==> |px| == 4 && rgba == px)
  }

  lemma PixelShows(colorType: Byte, px: seq<Byte>)
    requires BytesPerPixel(colorType) == Some(|px|)
    ensures Shows(colorType, px, Pixel(colorType, px))
  {}

  /** The n bytes at a place, if they are there. */
  function PixelAt(bytes: seq<Byte>, at: int, n: nat): seq<Byte> {
    if 0 <= at && at + n <= |bytes| then bytes[at..at + n] else []
  }

  lemma Within(i: nat, width: nat, k: nat)
    requires i < width
    ensures Times(i, k) + k <= Times(width, k)
  {
    if i + 1 < width {
      Within(i, width - 1, k);
    }
    MoreTimes(i, k);
    assert Times(i + 1, k) == Times(i, k) + k;
  }

  lemma MoreTimes(i: nat, k: nat)
    ensures Times(i + 1, k) == Times(i, k) + k
  {}

  lemma {:induction false} RowShows(colorType: Byte, row: seq<Byte>, bpp: nat, width: nat, x: nat)
    requires BytesPerPixel(colorType) == Some(bpp) && |row| == Times(width, bpp) && x < width
    ensures Times(x, bpp) + bpp <= |row| && Times(x, 4) + 4 <= |RowRgba(colorType, row, bpp)|
    ensures Shows(colorType, PixelAt(row, Times(x, bpp), bpp), PixelAt(RowRgba(colorType, row, bpp), Times(x, 4), 4))
    decreases x
  {
    hide RowRgba, Times, Pixel, Shows, PixelAt;
    Within(x, width, bpp);
    Within(x, width, 4);
    RowRgbaLength(colorType, row, bpp, width);
    TimesOne(width, bpp);
    RowRgbaStep(colorType, row, bpp);
    var rest := RowRgba(colorType, row[bpp..], bpp);
    PixelShows(colorType, row[..bpp]);
    if x == 0 {
      TimesNone(bpp);
      FirstPiece(row, bpp, row[..bpp], row[bpp..]);
      FirstPiece(RowRgba(colorType, row, bpp), 4, Pixel(colorType, row[..bpp]), rest);
    } else {
      RowShows(colorType, row[bpp..], bpp, width - 1, x - 1);
      TimesOne(x, bpp);
      TimesOne(x, 4);
      LaterPiece(row, bpp, row[..bpp], row[bpp..], Times(x - 1, bpp), bpp);
      LaterPiece(RowRgba(colorType, row, bpp), 4, Pixel(colorType, row[..bpp]), rest, Times(x - 1, 4), 4);
    }
  }

  lemma TimesNone(k: nat)
    ensures Times(0, k) == 0 && Times(0, 4) == 0
  {}

  lemma FirstPiece(all: seq<Byte>, n: nat, a: seq<Byte>, b: seq<Byte>)
    requires |a| == n && all == a + b
    ensures PixelAt(all, 0, n) == a
  {}

  lemma LaterPiece(all: seq<Byte>, n: nat, a: seq<Byte>, b: seq<Byte>, at: nat, m: nat)
    requires |a| == n && all == a + b && at + m <= |b|
    ensures PixelAt(all, n + at, m) == PixelAt(b, at, m)
  {}

  lemma {:induction false} ImageShows(colorType: Byte, rows: seq<seq<Byte>>, bpp: nat, width: nat, x: nat, y: nat)
    requires BytesPerPixel(colorType) == Some(bpp) && (forall r :: r in rows ==> |r| == Times(width, bpp))
    requires x < width && y < |rows|
    ensures Times(x, bpp) + bpp <= |rows[y]|
    ensures Times(y, Times(width, 4)) + Times(x, 4) + 4 <= |ImageRgba(colorType, rows, bpp)|
    ensures Shows(colorType, PixelAt(rows[y], Times(x, bpp), bpp),
                  PixelAt(ImageRgba(colorType, rows, bpp), Times(y, Times(width, 4)) + Times(x, 4), 4))
    decreases y
  {
    hide RowRgba, ImageRgba, Times, Shows, PixelAt;
    var w := Times(width, 4);
    var first := RowRgba(colorType, rows[0], bpp);
    var rest := ImageRgba(colorType, rows[1..], bpp);
    assert rows == [rows[0]] + rows[1..];
    ImageStep(colorType, rows[0], rows[1..], bpp);
    RowRgbaLength(colorType, rows[0], bpp, width);
    if y == 0 {
      TimesNone(w);
      RowShows(colorType, rows[0], bpp, width, x);
      EarlierPiece(ImageRgba(colorType, rows, bpp), first, rest, Times(x, 4), 4);
    } else {
      ImageShows(colorType, rows[1..], bpp, width, x, y - 1);
      TimesOne(y, w);
      LaterPiece(ImageRgba(colorType, rows, bpp), w, first, rest, Times(y - 1, w) + Times(x, 4), 4);
    }
  }

  lemma EarlierPiece(all: seq<Byte>, a: seq<Byte>, b: seq<Byte>, at: nat, m: nat)
    requires all == a + b && at + m <= |a|
    ensures PixelAt(all, at, m) == PixelAt(a, at, m)
  {}

  lemma PixelPlace(width: nat, x: nat, y: nat)
    ensures Times(y, Times(width, 4)) + Times(x, 4) == 4 * (y * width + x)
  {
    TimesIs(y, Times(width, 4));
    TimesIs(width, 4);
    TimesIs(x, 4);
    assert y * (width * 4) == 4 * (y * width);
  }

  /** Every pixel of every decoded picture: pixel x of row y shows the reconstructed bytes of its place, in the way of
      its colour type, and there is nothing else. */
  lemma {:induction false} EveryPixelShown(raw: seq<Byte>, colorType: Byte, width: nat, height: nat, bpp: nat, x: nat,
      y: nat)
    requires BytesPerPixel(colorType) == Some(bpp) && |raw| == Times(height, Times(width, bpp) + 1)
    requires x < width && y < height
    ensures var rows := Rows(raw, Zeros(Times(width, bpp)), bpp);
            var rgba := Decoded(raw, colorType, Times(width, bpp), bpp);
            && |rgba| == width * height * 4 && |rows| == height && x * bpp + bpp <= |rows[y]| == width * bpp
            && 4 * (y * width + x) + 4 <= |rgba|
            && Shows(colorType, PixelAt(rows[y], x * bpp, bpp), PixelAt(rgba, 4 * (y * width + x), 4))
  {
    hide Times, Rows, ImageRgba, Shows, PixelAt, Zeros;
    var stride := Times(width, bpp);
    var rows := Rows(raw, Zeros(stride), bpp);
    RowsShape(raw, Zeros(stride), bpp, height);
    DecodedLength(raw, colorType, width, height, bpp);
    ImageShows(colorType, rows, bpp, width, x, y);
    PixelPlace(width, x, y);
    TimesIs(x, bpp);
    TimesIs(width, bpp);
  }
}
