/** Watermark sizing and placement: the integer arithmetic shared by the
    position handler, the preview and the per-file watermarking step. */
module Geometry {
  import opened Wrappers
  import Arith

  /** The fixed distance, in pixels, from the canvas edges used by the four
      corner placements and by the coordinate fallback. */
  const Margin: int := 10

  /** The size slider's range, in percent of the base image's width. */
  const MinScale: int := 5
  const MaxScale: int := 50

  datatype Dims = Dims(width: nat, height: nat)

  /** The size of a decoded image: a raster always has at least one pixel
      in each direction. */
  type ImageDims = d: Dims | d.width > 0 && d.height > 0 witness Dims(1, 1)

  /** The five entries of the position combo box, in their on-screen order:
      bottom right, bottom left, top right, top left, choose it myself. */
  datatype Position = BottomRight | BottomLeft | TopRight | TopLeft | Custom

  predicate IsLeft(p: Position) { p == BottomLeft || p == TopLeft }
  predicate IsTop(p: Position) { p == TopRight || p == TopLeft }

  /** The width the watermark is resized to: `scale` percent of the base
      width, truncated. */
  function WatermarkWidth(baseWidth: nat, scale: nat): (w: nat)
    ensures w * 100 <= baseWidth * scale < (w + 1) * 100
  {
    baseWidth * scale / 100
  }

  /** The height that keeps the watermark's original aspect ratio
      `original.width / original.height` at width `w`, truncated. */
  function WatermarkHeight(w: nat, original: ImageDims): (h: nat)
    ensures h * original.width <= w * original.height < (h + 1) * original.width
  {
    w * original.height / original.width
  }

  /** The size of the resized watermark for a base image and a scale. */
  function ScaledSize(base: ImageDims, watermark: ImageDims, scale: nat): (d: Dims)
    ensures d.width * 100 <= base.width * scale < (d.width + 1) * 100
    ensures d.height * watermark.width <= d.width * watermark.height < (d.height + 1) * watermark.width
  {
    var w := WatermarkWidth(base.width, scale);
    Dims(w, WatermarkHeight(w, watermark))
  }

  /** The top-left offset of a watermark of size `wm` on a base of size
      `base` for a corner choice; None for the custom choice, which leaves the
      coordinates to the user. No clamping: the offset may be negative. */
  function Resolve(p: Position, base: Dims, wm: Dims): (r: Option<(int, int)>)
    ensures r.Some? <==> p != Custom
    ensures r.Some? && IsLeft(p) ==> r.value.0 == Margin
    ensures r.Some? && !IsLeft(p) ==> base.width - (r.value.0 + wm.width) == Margin
    ensures r.Some? && IsTop(p) ==> r.value.1 == Margin
    ensures r.Some? && !IsTop(p) ==> base.height - (r.value.1 + wm.height) == Margin
  {
    var right := base.width - wm.width - Margin;
    var bottom := base.height - wm.height - Margin;
    match p
    case BottomRight => Some((right, bottom))
    case BottomLeft => Some((Margin, bottom))
    case TopRight => Some((right, Margin))
    case TopLeft => Some((Margin, Margin))
    case Custom => None
  }

  /** True when a span of length `len` starting at `offset` lies within
      `[0, extent)`. */
  predicate WithinSpan(offset: int, len: int, extent: int) {
    0 <= offset && offset + len <= extent
  }

  /** For every corner, the watermark lies inside the canvas exactly when it
      leaves room for the margin on the chosen side. */
  lemma CornerInsideIffRoom(p: Position, base: Dims, wm: Dims)
    requires p != Custom
    ensures var r := Resolve(p, base, wm).value;
      WithinSpan(r.0, wm.width, base.width) <==> wm.width + Margin <= base.width
    ensures var r := Resolve(p, base, wm).value;
      WithinSpan(r.1, wm.height, base.height) <==> wm.height + Margin <= base.height
  {
  }

  /** No clamping: a right-hand placement goes negative exactly when the
      watermark is wider than the canvas less the margin (likewise for the
      bottom placements and height). */
  lemma NoClamping(p: Position, base: Dims, wm: Dims)
    requires p != Custom
    ensures !IsLeft(p) ==> (Resolve(p, base, wm).value.0 < 0 <==> wm.width > base.width - Margin)
    ensures !IsTop(p) ==> (Resolve(p, base, wm).value.1 < 0 <==> wm.height > base.height - Margin)
  {
  }

  /** The right placements mirror the left ones about the canvas centre. */
  lemma MirrorSymmetry(base: Dims, wm: Dims)
    ensures Resolve(BottomRight, base, wm).value.0 + wm.width == base.width - Resolve(BottomLeft, base, wm).value.0
    ensures Resolve(TopRight, base, wm).value.1 + wm.height == base.height - Resolve(BottomRight, base, wm).value.1
  {
  }

  /** Within the slider's range the watermark is at most half as wide as the
      base image and at least `MinScale` percent of it, truncated. */
  lemma WidthWithinSliderRange(baseWidth: nat, scale: nat)
    requires MinScale <= scale <= MaxScale
    ensures 2 * WatermarkWidth(baseWidth, scale) <= baseWidth
    ensures WatermarkWidth(baseWidth, MinScale) <= WatermarkWidth(baseWidth, scale)
  {
    WidthMonotone(baseWidth, MinScale, scale);
    WidthMonotone(baseWidth, scale, MaxScale);
    assert WatermarkWidth(baseWidth, MaxScale) * 2 <= baseWidth;
  }

  /** A larger scale never gives a narrower watermark. */
  lemma WidthMonotone(baseWidth: nat, s1: nat, s2: nat)
    requires s1 <= s2
    ensures WatermarkWidth(baseWidth, s1) <= WatermarkWidth(baseWidth, s2)
  {
    var w1, w2 := WatermarkWidth(baseWidth, s1), WatermarkWidth(baseWidth, s2);
    Arith.MulMonotone(baseWidth, s1, s2);
    Arith.MulCancelLess(w1, w2 + 1, 100);
  }

  /** A watermark that is not resized in width keeps its height: the
      truncation loses nothing at the original width. */
  lemma AspectPreserved(w: nat, original: ImageDims)
    ensures w == original.width ==> WatermarkHeight(w, original) == original.height
  {
    if w == original.width {
      var h := WatermarkHeight(w, original);
      assert h * original.width <= original.height * original.width < (h + 1) * original.width;
      if h < original.height {
        Arith.MulMonotone(original.width, h + 1, original.height);
      }
    }
  }

  /** A base 1000 x 500 with a 200 x 100 watermark at 20 percent placed at the
      bottom left: the watermark keeps its size and sits at (10, 390). */
  lemma BottomLeftScenario()
    ensures ScaledSize(Dims(1000, 500), Dims(200, 100), 20) == Dims(200, 100)
    ensures Resolve(BottomLeft, Dims(1000, 500), Dims(200, 100)) == Some((10, 390))
  {
    AspectPreserved(200, Dims(200, 100));
  }
}
