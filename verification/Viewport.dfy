/** Locating the viewport in a window capture by the magenta markers in its corners. */
module Viewport {
  import opened Common

  const MARKER_MIN_RB := 200
  const MARKER_MAX_G := 60
  const MARKER_SCALE_TOLERANCE := 0.03

  datatype Rect = Rect(x: int, y: int, width: int, height: int)

  datatype Hint = Hint(viewportWidth: nat, viewportHeight: nat, markerSize: nat)

  datatype Failure = NoMarkers | NotARectangle | WrongAspect

  /** A read outside the capture is no marker. */
  predicate IsMarkerPixel(rgba: seq<Byte>, offset: int) {
    0 <= offset && offset + 2 < |rgba| && rgba[offset] >= MARKER_MIN_RB && rgba[offset + 1] <= MARKER_MAX_G
        && rgba[offset + 2] >= MARKER_MIN_RB
  }

  function Offset(x: int, y: int, width: nat): int {
    (y * width + x) * 4
  }

  predicate Marked(rgba: seq<Byte>, width: nat, height: nat, x: int, y: int) {
    0 <= x < width && 0 <= y < height && IsMarkerPixel(rgba, Offset(x, y, width))
  }

  // ---------- What is looked for ----------

  predicate Spans(x: int, y: int, r: Rect) {
    r.x <= x < r.x + r.width && r.y <= y < r.y + r.height
  }

  /** The least rectangle around the markers seen so far: every one is inside, and each side has one on it. */
  ghost predicate IsBoxOf(seen: set<(int, int)>, r: Rect) {
    && (forall p :: p in seen ==> Spans(p.0, p.1, r))
    && (exists p :: p in seen && p.0 == r.x)
    && (exists p :: p in seen && p.0 == r.x + r.width - 1)
    && (exists p :: p in seen && p.1 == r.y)
    && (exists p :: p in seen && p.1 == r.y + r.height - 1)
  }

  ghost function Markers(rgba: seq<Byte>, width: nat, height: nat): (m: set<(int, int)>)
    ensures forall x, y :: (x, y) in m <==> Marked(rgba, width, height, x, y)
  {
    set x: int, y: int | 0 <= x < width && 0 <= y < height && Marked(rgba, width, height, x, y) :: (x, y)
  }

  lemma BoxIsUnique(seen: set<(int, int)>, r: Rect, s: Rect)
    requires IsBoxOf(seen, r) && IsBoxOf(seen, s)
    ensures r == s
  {}

  function Inset(hint: Hint): nat {
    Max(1, hint.markerSize / 4)
  }

  /** A pixel some way inside each corner is a marker. */
  predicate CornersMarked(rgba: seq<Byte>, width: nat, r: Rect, inset: nat) {
    var (right, bottom) := (r.x + r.width - 1, r.y + r.height - 1);
    && IsMarkerPixel(rgba, Offset(r.x + inset, r.y + inset, width))
        && IsMarkerPixel(rgba, Offset(right - inset, r.y + inset, width))
    && IsMarkerPixel(rgba, Offset(r.x + inset, bottom - inset, width))
        && IsMarkerPixel(rgba, Offset(right - inset, bottom - inset, width))
  }

  function Larger(a: real, b: real): real {
    if a < b then b else a
  }

  predicate SameAspect(r: Rect, hint: Hint)
    requires hint.viewportWidth > 0 && hint.viewportHeight > 0
  {
    var (a, b) := (r.width as real / hint.viewportWidth as real, r.height as real / hint.viewportHeight as real);
    Larger(a - b, b - a) <= MARKER_SCALE_TOLERANCE * Larger(a, b)
  }

  ghost predicate Answers(answer: Result<Rect, Failure>, rgba: seq<Byte>, width: nat, height: nat, hint: Hint)
    requires hint.viewportWidth > 0 && hint.viewportHeight > 0
  {
    var seen := Markers(rgba, width, height);
    && (answer == Err(NoMarkers) <==> seen == {})
    && (answer.Ok? ==> IsBoxOf(seen, answer.value))
    && forall r :: IsBoxOf(seen, r) ==>
                   answer == if !CornersMarked(rgba, width, r, Inset(hint)) then Err(NotARectangle)
                             else if !SameAspect(r, hint) then Err(WrongAspect) else Ok(r)
  }

  // ---------- What the tests mean ----------

  /** Red and blue of at least 200 and green of at most 60. */
  predicate MagentaAt(rgba: seq<Byte>, at: int) {
    0 <= at && at + 2 < |rgba| && rgba[at] >= 200 && rgba[at + 1] <= 60 && rgba[at + 2] >= 200
  }

  /** The pixel in column x of row y is a marker exactly if it is there and magenta. */
  lemma {:induction false} MarkerLaw(rgba: seq<Byte>, width: nat, height: nat, x: int, y: int)
    ensures IsMarkerPixel(rgba, Offset(x, y, width)) <==> MagentaAt(rgba, 4 * (y * width + x))
    ensures Marked(rgba, width, height, x, y) <==>
              0 <= x < width && 0 <= y < height && MagentaAt(rgba, 4 * (y * width + x))
  {}

  lemma Cross(n: int, w: nat, h: nat)
    requires w > 0 && h > 0
    ensures n as real / w as real * (w * h) as real == (n * h) as real
  {
    var r := n as real / w as real;
    assert r * w as real == n as real;
    assert (w * h) as real == w as real * h as real;
    assert r * (w as real * h as real) == r * w as real * h as real;
    assert (n * h) as real == n as real * h as real;
  }

  lemma Scaling(a: real, b: real, m: real)
    requires m > 0.0
    ensures a <= b <==> a * m <= b * m
  {
    if a <= b {
      assert (b - a) * m >= 0.0;
    } else {
      assert (a - b) * m > 0.0;
    }
  }

  lemma LargerTimes(a: real, b: real, m: real, p: int, q: int)
    requires a * m == p as real && b * m == q as real && m > 0.0
    ensures Larger(a, b) * m == Max(p, q) as real
  {
    Scaling(a, b, m);
  }

  lemma Proportion(x: real, y: real, m: real, d: int, n: int)
    requires x * m == d as real && y * m == n as real && m > 0.0
    ensures x <= 0.03 * y <==> 100 * d <= 3 * n
  {
    Scaling(x, 0.03 * y, m);
    assert 0.03 * y * m == 0.03 * (y * m);
    Percent(d, n);
  }

  lemma AspectOf(a: real, b: real, m: real, p: int, q: int)
    requires a * m == p as real && b * m == q as real && m > 0.0
    ensures Larger(a - b, b - a) <= 0.03 * Larger(a, b) <==> 100 * Max(p - q, q - p) <= 3 * Max(p, q)
  {
    LargerTimes(a, b, m, p, q);
    Difference(a, b, m, p, q);
    hide Max, Larger;
    Proportion(Larger(a - b, b - a), Larger(a, b), m, Max(p - q, q - p), Max(p, q));
  }

  lemma Positive(w: nat, h: nat)
    requires w > 0 && h > 0
    ensures (w * h) as real > 0.0 && (h * w) as real == (w * h) as real
  {}

  /** The scales agree when, brought to one denominator, they differ by at most 3 in 100 of the larger. */
  lemma {:induction false} AspectLaw(r: Rect, hint: Hint)
    requires hint.viewportWidth > 0 && hint.viewportHeight > 0
    ensures SameAspect(r, hint) <==>
              var p, q := r.width * hint.viewportHeight, r.height * hint.viewportWidth;
              100 * Max(p - q, q - p) <= 3 * Max(p, q)
  {
    var w, h := hint.viewportWidth, hint.viewportHeight;
    var a, b, m := r.width as real / w as real, r.height as real / h as real, (w * h) as real;
    Positive(w, h);
    Cross(r.width, w, h);
    Cross(r.height, h, w);
    hide Max, Larger;
    AspectOf(a, b, m, r.width * h, r.height * w);
  }

  lemma Difference(a: real, b: real, m: real, p: int, q: int)
    requires a * m == p as real && b * m == q as real && m > 0.0
    ensures Larger(a - b, b - a) * m == Max(p - q, q - p) as real
  {
    assert (a - b) * m == (p - q) as real && (b - a) * m == (q - p) as real;
    Scaling(a - b, b - a, m);
  }

  lemma Percent(d: int, n: int)
    ensures d as real <= 0.03 * n as real <==> 100 * d <= 3 * n
  {}

  // ---------- The scan ----------

  /** The markers of the rows above y, and of row y before x. */
  ghost function Before(rgba: seq<Byte>, width: nat, height: nat, x: int, y: int): (m: set<(int, int)>)
  {
    set p | p in Markers(rgba, width, height) && (p.1 < y || (p.1 == y && p.0 < x))
  }

  /** The running bounds: still at their start, or the box of what has been seen. */
  ghost predicate Bounds(seen: set<(int, int)>, width: nat, height: nat, minX: int, minY: int, maxX: int, maxY: int) {
    if seen == {} then minX == width && minY == height && maxX == -1 && maxY == -1
    else maxX >= 0 && IsBoxOf(seen, Rect(minX, minY, maxX - minX + 1, maxY - minY + 1))
  }

  lemma NextPixel(rgba: seq<Byte>, width: nat, height: nat, x: int, y: int)
    requires 0 <= x < width && 0 <= y < height
    ensures Before(rgba, width, height, x + 1, y) ==
            if Marked(rgba, width, height, x, y) then Before(rgba, width, height, x, y) + {(x, y)}
                else Before(rgba, width, height, x, y)
  {
    hide IsMarkerPixel;
  }

  lemma NextRow(rgba: seq<Byte>, width: nat, height: nat, y: int)
    ensures Before(rgba, width, height, width, y) == Before(rgba, width, height, 0, y + 1)
    ensures Before(rgba, width, height, 0, 0) == {}
        && Before(rgba, width, height, 0, height) == Markers(rgba, width, height)
  {
    forall p | p in Markers(rgba, width, height)
      ensures 0 <= p.0 < width && 0 <= p.1 < height
    {
      assert p == (p.0, p.1);
    }
    hide IsMarkerPixel;
  }

  lemma OneMore(seen: set<(int, int)>, width: nat, height: nat, minX: int, minY: int, maxX: int, maxY: int, x: int,
      y: int)
    requires Bounds(seen, width, height, minX, minY, maxX, maxY) && 0 <= x < width && 0 <= y < height
    ensures Bounds(seen + {(x, y)}, width, height, Min(minX, x), Min(minY, y), Max(maxX, x), Max(maxY, y))
  {
    var box := Rect(Min(minX, x), Min(minY, y), Max(maxX, x) - Min(minX, x) + 1, Max(maxY, y) - Min(minY, y) + 1);
    assert (x, y) in seen + {(x, y)};
    if seen == {} {
      assert seen + {(x, y)} == {(x, y)};
    } else {
      var old0 := Rect(minX, minY, maxX - minX + 1, maxY - minY + 1);
      var l, r :| l in seen && r in seen && l.0 == old0.x && r.0 == old0.x + old0.width - 1;
      var t, b :| t in seen && b in seen && t.1 == old0.y && b.1 == old0.y + old0.height - 1;
      assert l in seen + {(x, y)} && r in seen + {(x, y)} && t in seen + {(x, y)} && b in seen + {(x, y)};
    }
  }

  method FindViewportRect(rgba: seq<Byte>, width: nat, height: nat, hint: Hint) returns (answer: Result<Rect, Failure>)
    requires hint.viewportWidth > 0 && hint.viewportHeight > 0
    ensures Answers(answer, rgba, width, height, hint)
  {
    hide Before, Bounds, IsMarkerPixel, Markers, IsBoxOf, CornersMarked, SameAspect;
    var minX, minY, maxX, maxY := ScanMarkers(rgba, width, height);
    ghost var seen := Markers(rgba, width, height);
    BoundsMeaning(seen, width, height, minX, minY, maxX, maxY);
    if maxX < 0 {
      return Err(NoMarkers);
    }
    var rect := Rect(minX, minY, maxX - minX + 1, maxY - minY + 1);
    forall r | IsBoxOf(seen, r) ensures r == rect {
      BoxIsUnique(seen, r, rect);
    }
    var inset := Max(1, hint.markerSize / 4);
    var marked := CheckCorners(rgba, width, rect, inset);
    if !marked {
      return Err(NotARectangle);
    }
    if !SameAspect(rect, hint) {
      return Err(WrongAspect);
    }
    answer := Ok(rect);
  }

  method CheckCorners(rgba: seq<Byte>, width: nat, rect: Rect, inset: nat) returns (marked: bool)
    ensures marked == CornersMarked(rgba, width, rect, inset)
  {
    hide IsMarkerPixel;
    var maxX, maxY := rect.x + rect.width - 1, rect.y + rect.height - 1;
    var corners := [(rect.x + inset, rect.y + inset), (maxX - inset, rect.y + inset), (rect.x + inset, maxY - inset),
        (maxX - inset, maxY - inset)];
    marked := true;
    for i := 0 to 4
      invariant forall k :: 0 <= k < i ==> IsMarkerPixel(rgba, Offset(corners[k].0, corners[k].1, width))
    {
      if !IsMarkerPixel(rgba, Offset(corners[i].0, corners[i].1, width)) {
        return false;
      }
    }
    assert corners[0].0 == rect.x + inset && corners[1].0 == maxX - inset && corners[2].1 == maxY - inset
        && corners[3].1 == maxY - inset;
  }

  method ScanMarkers(rgba: seq<Byte>, width: nat, height: nat) returns (minX: int, minY: int, maxX: int, maxY: int)
    ensures Bounds(Markers(rgba, width, height), width, height, minX, minY, maxX, maxY)
  {
    hide Before, IsMarkerPixel, Markers, IsBoxOf;
    minX, minY, maxX, maxY := width, height, -1, -1;
    NextRow(rgba, width, height, 0);
    for y := 0 to height
      invariant Bounds(Before(rgba, width, height, 0, y), width, height, minX, minY, maxX, maxY)
    {
      var row := y * width * 4;
      for x := 0 to width
        invariant Bounds(Before(rgba, width, height, x, y), width, height, minX, minY, maxX, maxY)
      {
        assert Offset(x, y, width) == row + x * 4;
        NextPixel(rgba, width, height, x, y);
        if IsMarkerPixel(rgba, row + x * 4) {
          OneMore(Before(rgba, width, height, x, y), width, height, minX, minY, maxX, maxY, x, y);
          minX, maxX := if x < minX then x else minX, if x > maxX then x else maxX;
          minY, maxY := if y < minY then y else minY, if y > maxY then y else maxY;
        }
      }
      NextRow(rgba, width, height, y);
    }
  }

  lemma BoundsMeaning(seen: set<(int, int)>, width: nat, height: nat, minX: int, minY: int, maxX: int, maxY: int)
    requires Bounds(seen, width, height, minX, minY, maxX, maxY)
    ensures maxX < 0 <==> seen == {}
    ensures maxX >= 0 ==> IsBoxOf(seen, Rect(minX, minY, maxX - minX + 1, maxY - minY + 1))
    ensures seen == {} ==> forall r :: !IsBoxOf(seen, r)
  {}

  // ---------- The markers the plugin draws are found ----------

  /** In one of the four squares of side `size` in the corners of the viewport. */
  predicate InCorner(v: Rect, size: nat, x: int, y: int) {
    && Spans(x, y, v)
    && (x < v.x + size || x >= v.x + v.width - size) && (y < v.y + size || y >= v.y + v.height - size)
  }

  /** The corner squares of a viewport shown whole, larger than the inset, are all the markers there are. */
  ghost predicate Drawn(rgba: seq<Byte>, width: nat, height: nat, hint: Hint, v: Rect, size: nat) {
    && 0 <= v.x && 0 <= v.y && v.x + v.width <= width && v.y + v.height <= height
    && Inset(hint) < size <= v.width && size <= v.height
    && forall x, y :: Marked(rgba, width, height, x, y) <==> InCorner(v, size, x, y)
  }

  /** Drawn markers lead back to their viewport, or to a refusal exactly when its sides do not fit the reported
      aspect. */
  lemma {:induction false} DrawnAnswer(rgba: seq<Byte>, width: nat, height: nat, hint: Hint, v: Rect, size: nat,
      answer: Result<Rect, Failure>)
    requires hint.viewportWidth > 0 && hint.viewportHeight > 0
    requires Drawn(rgba, width, height, hint, v, size) && Answers(answer, rgba, width, height, hint)
    ensures answer == if SameAspect(v, hint) then Ok(v) else Err(WrongAspect)
  {
    hide IsMarkerPixel, IsBoxOf, Markers, Marked, InCorner, CornersMarked, SameAspect;
    DrawnBox(rgba, width, height, v, size);
    DrawnCorners(rgba, width, height, v, size, Inset(hint));
  }

  function Distance(a: real, b: real): real {
    if a < b then b - a else a - b
  }

  /** Each side is the reported side at one scale, rounded by at most a pixel. */
  predicate Scaled(v: Rect, hint: Hint, scale: real) {
    && Distance(v.width as real, scale * hint.viewportWidth as real) <= 1.0
    && Distance(v.height as real, scale * hint.viewportHeight as real) <= 1.0
  }

  /** A viewport of at least 66 pixels a side, at any one display scale, is found whatever the rounding of its sides. */
  lemma {:induction false} DrawnViewportIsFound(rgba: seq<Byte>, width: nat, height: nat, hint: Hint, v: Rect,
      size: nat, scale: real, answer: Result<Rect, Failure>)
    requires hint.viewportWidth > 0 && hint.viewportHeight > 0
    requires Drawn(rgba, width, height, hint, v, size) && Answers(answer, rgba, width, height, hint)
    requires Scaled(v, hint, scale) && v.width >= 66 && v.height >= 66
    ensures answer == Ok(v)
  {
    hide Drawn, Answers;
    DrawnAnswer(rgba, width, height, hint, v, size, answer);
    RoundedAspect(v, hint, scale);
  }

  /** One of fewer pixels is found at an exact scale. */
  lemma {:induction false} ExactViewportIsFound(rgba: seq<Byte>, width: nat, height: nat, hint: Hint, v: Rect,
      size: nat, answer: Result<Rect, Failure>)
    requires hint.viewportWidth > 0 && hint.viewportHeight > 0
    requires Drawn(rgba, width, height, hint, v, size) && Answers(answer, rgba, width, height, hint)
    requires v.width as real / hint.viewportWidth as real == v.height as real / hint.viewportHeight as real
    ensures answer == Ok(v)
  {
    hide Answers, SameAspect;
    assert v.width >= 0;
    hide Drawn;
    DrawnAnswer(rgba, width, height, hint, v, size, answer);
    EvenScale(v, hint);
  }

  /** The capture of a small viewport that is all marker. */
  function Magenta(i: int): Byte {
    if i % 4 == 1 then 0 else 255
  }

  lemma MagentaIsDrawn(rgba: seq<Byte>, hint: Hint)
    requires |rgba| == 65 * 65 * 4 && (forall i :: 0 <= i < |rgba| ==> rgba[i] == Magenta(i)) && hint == Hint(66, 64, 4)
    ensures Drawn(rgba, 65, 65, hint, Rect(0, 0, 65, 65), 65)
  {
    forall x, y ensures Marked(rgba, 65, 65, x, y) <==> InCorner(Rect(0, 0, 65, 65), 65, x, y) {
      if 0 <= x < 65 && 0 <= y < 65 {
        var o := Offset(x, y, 65);
        assert 0 <= o && o + 3 < |rgba| && o % 4 == 0;
        assert rgba[o] == 255 && rgba[o + 1] == 0 && rgba[o + 2] == 255;
      }
    }
  }

  /** With 65 pixels a side, rounded by one pixel from a reported 66 by 64, there is a capture whose viewport is
      refused. */
  lemma {:induction false} SmallViewportMayFail() returns (rgba: seq<Byte>)
    ensures var v, hint := Rect(0, 0, 65, 65), Hint(66, 64, 4);
            && Drawn(rgba, 65, 65, hint, v, 65) && Scaled(v, hint, 1.0)
            && forall answer :: Answers(answer, rgba, 65, 65, hint) ==> answer == Err(WrongAspect)
  {
    var v, hint := Rect(0, 0, 65, 65), Hint(66, 64, 4);
    assert 65.0 / 64.0 - 65.0 / 66.0 > 0.03 * (65.0 / 64.0);
    assert Scaled(v, hint, 1.0) && !SameAspect(v, hint);
    rgba := seq(65 * 65 * 4, i requires 0 <= i < 65 * 65 * 4 => Magenta(i));
    MagentaIsDrawn(rgba, hint);
    hide Drawn, Answers, SameAspect, Scaled;
    forall answer | Answers(answer, rgba, 65, 65, hint) ensures answer == Err(WrongAspect) {
      DrawnAnswer(rgba, 65, 65, hint, v, 65, answer);
    }
  }

  /** One rounded side bounds the scale from both sides. */
  lemma SideOff(side: real, reported: real, scale: real)
    requires reported > 0.0 && side >= 66.0 && Distance(side, scale * reported) <= 1.0
    ensures side / reported * 65.0 <= scale * 66.0 <= side / reported * 67.0
  {
    var a := side / reported;
    assert a * reported == side;
    assert (a * 65.0) * reported <= (scale * 66.0) * reported <= (a * 67.0) * reported;
    Cancelled(a * 65.0, scale * 66.0, reported);
    Cancelled(scale * 66.0, a * 67.0, reported);
  }

  lemma Cancelled(a: real, b: real, c: real)
    requires c > 0.0 && a * c <= b * c
    ensures a <= b
  {}

  lemma RoundedAspect(v: Rect, hint: Hint, scale: real)
    requires hint.viewportWidth > 0 && hint.viewportHeight > 0 && Scaled(v, hint, scale) && v.width >= 66
        && v.height >= 66
    ensures SameAspect(v, hint)
  {
    SideOff(v.width as real, hint.viewportWidth as real, scale);
    SideOff(v.height as real, hint.viewportHeight as real, scale);
  }

  lemma DrawnCorners(rgba: seq<Byte>, width: nat, height: nat, v: Rect, size: nat, inset: nat)
    requires 0 <= v.x && 0 <= v.y && v.x + v.width <= width && v.y + v.height <= height
    requires inset < size <= v.width && size <= v.height
    requires forall x, y :: Marked(rgba, width, height, x, y) <==> InCorner(v, size, x, y)
    ensures CornersMarked(rgba, width, v, inset)
  {
    hide IsMarkerPixel;
    var (right, bottom) := (v.x + v.width - 1, v.y + v.height - 1);
    assert Marked(rgba, width, height, v.x + inset, v.y + inset)
        && Marked(rgba, width, height, right - inset, v.y + inset);
    assert Marked(rgba, width, height, v.x + inset, bottom - inset)
        && Marked(rgba, width, height, right - inset, bottom - inset);
  }

  lemma EvenScale(v: Rect, hint: Hint)
    requires hint.viewportWidth > 0 && hint.viewportHeight > 0 && v.width >= 0
    requires v.width as real / hint.viewportWidth as real == v.height as real / hint.viewportHeight as real
    ensures SameAspect(v, hint)
  {
    assert v.width as real / hint.viewportWidth as real >= 0.0;
  }

  lemma DrawnBox(rgba: seq<Byte>, width: nat, height: nat, v: Rect, size: nat)
    requires 0 <= v.x && 0 <= v.y && v.x + v.width <= width && v.y + v.height <= height && 0 < size <= v.width
        && size <= v.height
    requires forall x, y :: Marked(rgba, width, height, x, y) <==> InCorner(v, size, x, y)
    ensures IsBoxOf(Markers(rgba, width, height), v)
  {
    var seen := Markers(rgba, width, height);
    forall p | p in seen ensures Spans(p.0, p.1, v) {
      assert (p.0, p.1) in seen && Marked(rgba, width, height, p.0, p.1);
    }
    assert Marked(rgba, width, height, v.x, v.y) && Marked(rgba, width, height, v.x + v.width - 1, v.y + v.height - 1);
    assert (v.x, v.y) in seen && (v.x + v.width - 1, v.y + v.height - 1) in seen;
    hide Marked;
  }
}
