/** Which pixels the encoder takes into its 8 by 8 blocks: the image, its last row and column repeated to a full
    block. */
module JpegSampling {
  import opened Common

  datatype Pixel = Pixel(red: Byte, green: Byte, blue: Byte)

  /** A block, named by the pixel at its top left. */
  datatype Corner = Corner(x: nat, y: nat)

  lemma TimesAdd(a: int, b: int, w: int)
    ensures (a + b) * w == a * w + b * w
  {}

  lemma TimesUpTo(a: int, b: int, w: int)
    requires a <= b && w >= 0
    ensures a * w <= b * w
  {}

  lemma QuadTimes(y: int, width: int)
    ensures width * 4 * y == 4 * (y * width) && 4 * (y * width) == 4 * y * width
  {
    assert width * 4 * y == 4 * (width * y);
  }

  /** Where a pixel of the image is kept. */
  function At(x: nat, y: nat, width: nat): nat {
    4 * (y * width + x)
  }

  lemma Within(x: nat, y: nat, width: nat, height: nat)
    requires x < width && y < height
    ensures At(x, y, width) + 3 < 4 * (width * height)
  {
    TimesUpTo(y + 1, height, width);
    TimesAdd(y, 1, width);
  }

  /** The sample index of the encoder for one position of a block, clamped to the edges as it does it. */
  method SampleOffset(width: nat, height: nat, x: nat, y: nat, pos: nat) returns (p: nat)
    requires x < width && y < height && pos < 64
    ensures p == At(Min(x + pos % 8, width - 1), Min(y + pos / 8, height - 1), width)
    ensures p + 3 < 4 * (width * height)
  {
    hide At;
    var quadWidth := width * 4;
    var row, col := pos / 8, pos % 8 * 4;
    var q := quadWidth * y + x * 4 + row * quadWidth + col;
    ghost var over := if y + row >= height then y + row - height + 1 else 0;
    if y + row >= height {
      q := q - quadWidth * (y + row - height + 1);
    }
    if x + col / 4 >= width {
      q := q - 4 * (x + col / 4 - width + 1);
    }
    var cx, cy := Min(x + pos % 8, width - 1), Min(y + pos / 8, height - 1);
    TimesAdd(y, row, quadWidth);
    TimesAdd(cy, over, quadWidth);
    assert quadWidth * y == y * quadWidth && quadWidth * over == over * quadWidth;
    QuadTimes(cy, width);
    AtIs(cx, cy, width);
    Within(cx, cy, width, height);
    p := q;
  }

  lemma AtIs(x: nat, y: nat, width: nat)
    ensures At(x, y, width) == 4 * (y * width) + 4 * x
  {}

  function PixelAt(rgba: seq<Byte>, x: nat, y: nat, width: nat): Pixel
    requires At(x, y, width) + 3 < |rgba|
  {
    var p := At(x, y, width);
    Pixel(rgba[p], rgba[p + 1], rgba[p + 2])
  }

  /** The pixel a block takes at a position. */
  function Sample(rgba: seq<Byte>, width: nat, height: nat, c: Corner, pos: nat): Pixel
    requires c.x < width && c.y < height && pos < 64 && |rgba| >= 4 * (width * height)
  {
    Within(Min(c.x + pos % 8, width - 1), Min(c.y + pos / 8, height - 1), width, height);
    PixelAt(rgba, Min(c.x + pos % 8, width - 1), Min(c.y + pos / 8, height - 1), width)
  }

  method LoadBlock(rgba: seq<Byte>, width: nat, height: nat, c: Corner) returns (block: seq<Pixel>)
    requires c.x < width && c.y < height && |rgba| >= 4 * (width * height)
    ensures |block| == 64 && forall pos :: 0 <= pos < 64 ==> block[pos] == Sample(rgba, width, height, c, pos)
  {
    block := [];
    for pos := 0 to 64
      invariant |block| == pos && forall k :: 0 <= k < pos ==> block[k] == Sample(rgba, width, height, c, k)
    {
      var p := SampleOffset(width, height, c.x, c.y, pos);
      block := block + [Pixel(rgba[p], rgba[p + 1], rgba[p + 2])];
    }
  }

  predicate IsCorner(c: Corner, width: nat, height: nat) {
    c.x < width && c.y < height && c.x % 8 == 0 && c.y % 8 == 0
  }

  /** Blocks along a side. */
  function Blocks(side: nat): nat {
    (side + 7) / 8
  }

  /** Blocks of an image. */
  function BlockCount(width: nat, height: nat): nat {
    Blocks(height) * Blocks(width)
  }

  lemma OneMoreRow(rows: nat, n: nat)
    ensures (rows + 1) * n == rows * n + n
  {}

  /** One row of corners, added to those above it. */
  method CornerRow(width: nat, height: nat, y: nat, above: seq<Corner>) returns (corners: seq<Corner>)
    requires y < height && y % 8 == 0 && (forall c :: c in above <==> IsCorner(c, width, height) && c.y < y)
    requires forall i, j :: 0 <= i < j < |above| ==> Before(above[i], above[j])
    ensures |corners| == |above| + Blocks(width)
    ensures forall c :: c in corners <==> IsCorner(c, width, height) && c.y < y + 8
    ensures forall i, j :: 0 <= i < j < |corners| ==> Before(corners[i], corners[j])
  {
    corners := above;
    var x := 0;
    while x < width
      invariant x % 8 == 0 && |corners| == |above| + x / 8 && (x >= width ==> x / 8 == Blocks(width))
      invariant forall c :: c in corners <==> IsCorner(c, width, height) && (c.y < y || (c.y == y && c.x < x))
      invariant forall i, j :: 0 <= i < j < |corners| ==> Before(corners[i], corners[j])
    {
      corners := corners + [Corner(x, y)];
      x := x + 8;
    }
  }

  /** The corners of the block loop, in its order. */
  method Corners(width: nat, height: nat) returns (corners: seq<Corner>)
    ensures |corners| == BlockCount(width, height)
    ensures forall c :: c in corners <==> IsCorner(c, width, height)
    ensures forall i, j :: 0 <= i < j < |corners| ==> Before(corners[i], corners[j])
  {
    corners := [];
    var y := 0;
    while y < height
      invariant y % 8 == 0 && (y >= height ==> y / 8 == Blocks(height))
      invariant |corners| == y / 8 * Blocks(width)
      invariant forall c :: c in corners <==> IsCorner(c, width, height) && c.y < y
      invariant forall i, j :: 0 <= i < j < |corners| ==> Before(corners[i], corners[j])
    {
      corners := CornerRow(width, height, y, corners);
      OneMoreRow(y / 8, Blocks(width));
      y := y + 8;
    }
  }

  predicate Before(a: Corner, b: Corner) {
    a.y < b.y || (a.y == b.y && a.x < b.x)
  }

  /** The block takes the pixel at this position, and not as a repeated edge. */
  predicate Takes(c: Corner, pos: nat, x: nat, y: nat, width: nat, height: nat) {
    IsCorner(c, width, height) && pos < 64 && c.x + pos % 8 == x && c.y + pos / 8 == y
  }

  lemma Aligned(a: nat, b: nat, k: nat)
    requires a % 8 == 0 && b < 8 && a + b == k
    ensures a == k - k % 8 && b == k % 8
  {}

  /** Every pixel of the image is taken at exactly one position of exactly one block. */
  lemma {:induction false} TakenOnce(x: nat, y: nat, width: nat, height: nat, c: Corner, pos: nat)
    requires x < width && y < height
    ensures Takes(c, pos, x, y, width, height) <==> c == Corner(x - x % 8, y - y % 8) && pos == y % 8 * 8 + x % 8
  {
    if Takes(c, pos, x, y, width, height) {
      Aligned(c.x, pos % 8, x);
      Aligned(c.y, pos / 8, y);
    } else {
      Aligned(x - x % 8, x % 8, x);
      Aligned(y - y % 8, y % 8, y);
    }
  }
}
