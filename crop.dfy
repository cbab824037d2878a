/** The crop rectangle of the editor and its conversion from percentages of
    the image-sized work canvas the rotated image is drawn on to pixels, as
    `applyEdits` in src/App.tsx does it. */
module CropModel {

  /** A crop rectangle, each field a percentage of the image-sized work canvas
      the rotated image is drawn on. */
  datatype Crop = Crop(x: real, y: real, width: real, height: real)

  /** A rectangle in canvas pixels (fractional, as JavaScript computes it). */
  datatype PixelRect = PixelRect(x: real, y: real, width: real, height: real)

  /** The crop every new image and every reset starts from: the whole canvas. */
  const DefaultCrop: Crop := Crop(0.0, 0.0, 100.0, 100.0)

  /** Smallest width and height the crop sliders offer, in percent. */
  const MinCropPercent: real := 20.0

  /** The ranges the four crop sliders can produce: position 0-100, size
      20-100. Nothing stops `x + width` from exceeding 100. */
  predicate InSliderRange(c: Crop) {
    && 0.0 <= c.x <= 100.0
    && 0.0 <= c.y <= 100.0
    && MinCropPercent <= c.width <= 100.0
    && MinCropPercent <= c.height <= 100.0
  }

  /** `pct` percent of a canvas dimension. */
  function PercentOf(pct: real, dimension: nat): real {
    (pct / 100.0) * (dimension as real)
  }

  /** The crop in pixels of a `canvasWidth` x `canvasHeight` canvas. */
  function ToPixels(c: Crop, canvasWidth: nat, canvasHeight: nat): PixelRect {
    PixelRect(
      PercentOf(c.x, canvasWidth), PercentOf(c.y, canvasHeight),
      PercentOf(c.width, canvasWidth), PercentOf(c.height, canvasHeight))
  }

  /** Assigning a non-negative number to a canvas's `width` or `height` keeps
      its integer part (the conversion to an unsigned long truncates). */
  function CanvasDimension(v: real): (n: nat)
    requires v >= 0.0
    ensures n as real <= v < n as real + 1.0
  {
    v.Floor
  }

  /** The size of the canvas that receives the cropped region. */
  function CroppedCanvasSize(r: PixelRect): (size: (nat, nat))
    requires r.width >= 0.0 && r.height >= 0.0
    ensures size.0 as real <= r.width < size.0 as real + 1.0
    ensures size.1 as real <= r.height < size.1 as real + 1.0
  {
    (CanvasDimension(r.width), CanvasDimension(r.height))
  }

  /** Converting back from pixels to percentages recovers the crop on any
      canvas with both sides non-zero: the conversion loses nothing. */
  lemma ToPixelsRoundTrip(c: Crop, canvasWidth: nat, canvasHeight: nat)
    requires canvasWidth > 0 && canvasHeight > 0
    ensures var r := ToPixels(c, canvasWidth, canvasHeight);
      && r.x / (canvasWidth as real) * 100.0 == c.x
      && r.y / (canvasHeight as real) * 100.0 == c.y
      && r.width / (canvasWidth as real) * 100.0 == c.width
      && r.height / (canvasHeight as real) * 100.0 == c.height
  {
    PercentRoundTrip(c.x, canvasWidth);
    PercentRoundTrip(c.y, canvasHeight);
    PercentRoundTrip(c.width, canvasWidth);
    PercentRoundTrip(c.height, canvasHeight);
  }

  lemma PercentRoundTrip(pct: real, dimension: nat)
    requires dimension > 0
    ensures PercentOf(pct, dimension) / (dimension as real) * 100.0 == pct
  {
    var w := dimension as real;
    assert (pct / 100.0) * w / w == pct / 100.0;
  }

  /** The default crop is the whole canvas, and the cropped canvas has exactly
      the size of the source canvas. */
  lemma DefaultCropIsWholeCanvas(canvasWidth: nat, canvasHeight: nat)
    ensures ToPixels(DefaultCrop, canvasWidth, canvasHeight)
      == PixelRect(0.0, 0.0, canvasWidth as real, canvasHeight as real)
    ensures CroppedCanvasSize(ToPixels(DefaultCrop, canvasWidth, canvasHeight))
      == (canvasWidth, canvasHeight)
  {
  }

  /** A crop within the slider ranges keeps at least a fifth of each side, is
      never larger than the canvas, starts inside it, and lies wholly inside it
      when its far edges do not pass 100%. */
  lemma SliderCropGeometry(c: Crop, canvasWidth: nat, canvasHeight: nat)
    requires InSliderRange(c)
    ensures var r := ToPixels(c, canvasWidth, canvasHeight);
      && 0.2 * (canvasWidth as real) <= r.width <= canvasWidth as real
      && 0.2 * (canvasHeight as real) <= r.height <= canvasHeight as real
      && 0.0 <= r.x <= canvasWidth as real
      && 0.0 <= r.y <= canvasHeight as real
      && (c.x + c.width <= 100.0 ==> r.x + r.width <= canvasWidth as real)
      && (c.y + c.height <= 100.0 ==> r.y + r.height <= canvasHeight as real)
  {
    AxisGeometry(c.x, c.width, canvasWidth);
    AxisGeometry(c.y, c.height, canvasHeight);
  }

  /** `SliderCropGeometry` along one axis. */
  lemma AxisGeometry(pos: real, size: real, dimension: nat)
    requires 0.0 <= pos <= 100.0 && MinCropPercent <= size <= 100.0
    ensures 0.2 * (dimension as real) <= PercentOf(size, dimension) <= dimension as real
    ensures 0.0 <= PercentOf(pos, dimension) <= dimension as real
    ensures pos + size <= 100.0 ==>
      PercentOf(pos, dimension) + PercentOf(size, dimension) <= dimension as real
  {
    PercentMonotone(20.0, size, dimension);
    PercentMonotone(size, 100.0, dimension);
    PercentMonotone(0.0, pos, dimension);
    PercentMonotone(pos, 100.0, dimension);
    if pos + size <= 100.0 {
      PercentMonotone(pos + size, 100.0, dimension);
    }
    PercentAdditive(pos, size, dimension);
    PercentOfConstants(dimension);
  }

  /** A larger percentage of the same dimension is at least as many pixels. */
  lemma PercentMonotone(lo: real, hi: real, dimension: nat)
    requires lo <= hi
    ensures PercentOf(lo, dimension) <= PercentOf(hi, dimension)
  {
    var d := dimension as real;
    assert (hi / 100.0) * d - (lo / 100.0) * d == ((hi - lo) / 100.0) * d;
  }

  /** Percentages of one dimension add up. */
  lemma PercentAdditive(a: real, b: real, dimension: nat)
    ensures PercentOf(a, dimension) + PercentOf(b, dimension) == PercentOf(a + b, dimension)
  {
  }

  lemma PercentOfConstants(dimension: nat)
    ensures PercentOf(0.0, dimension) == 0.0
    ensures PercentOf(20.0, dimension) == 0.2 * (dimension as real)
    ensures PercentOf(100.0, dimension) == dimension as real
  {
  }

  /** Nothing keeps `x + width` within 100: at X 50% and width 100% the region
      runs 300 pixels past the right edge of a 600-pixel canvas, and the
      cropped canvas is still the full 600 pixels wide. */
  lemma CropMayOverhang()
    ensures var r := ToPixels(Crop(50.0, 0.0, 100.0, 100.0), 600, 600);
      && InSliderRange(Crop(50.0, 0.0, 100.0, 100.0))
      && r.x + r.width == 900.0
      && CroppedCanvasSize(r) == (600, 600)
  {
  }

  /** Crop x 25%, width 50%, full height on a 600 x 600 work canvas gives a
      300 x 600 cropped canvas whose region starts at x = 150. */
  lemma HalfWidthScenario()
    ensures ToPixels(Crop(25.0, 0.0, 50.0, 100.0), 600, 600) == PixelRect(150.0, 0.0, 300.0, 600.0)
    ensures CroppedCanvasSize(PixelRect(150.0, 0.0, 300.0, 600.0)) == (300, 600)
  {
  }
}
