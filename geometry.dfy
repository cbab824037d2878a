/** Placement of the background-free image inside the square passport frame
    (`calculateOptimalPosition` in src/App.tsx). JavaScript numbers are
    idealised as Dafny reals: IEEE-754 rounding is not modelled. */
module Geometry {

  /** Scale applied to both axes and the top-left corner at which the scaled
      image is drawn in the frame. */
  datatype Placement = Placement(scale: real, x: real, y: real)

  /** The fraction of the frame that the longer side of the image fills. */
  const FitFraction: real := 0.95

  /** The share of the vertical slack by which a portrait image is raised. */
  const HeadRaise: real := 0.1

  /** `Math.min` on two reals. */
  function Min(a: real, b: real): (m: real)
    ensures m <= a && m <= b
    ensures m == a || m == b
  {
    if a <= b then a else b
  }

  /** The image is taller than it is wide. */
  predicate IsPortrait(width: real, height: real) {
    height > width
  }

  /** Fit the image into a `canvasSize` square: the smaller of the two axis
      scales times the margin, centred horizontally, and centred vertically
      unless the image is a portrait, which is raised by a tenth of the
      vertical slack. */
  function CalculateOptimalPosition(width: real, height: real, canvasSize: real): Placement
    requires width > 0.0 && height > 0.0
  {
    var scaleX := canvasSize / width;
    var scaleY := canvasSize / height;
    var scale := Min(scaleX, scaleY) * FitFraction;
    var scaledWidth := width * scale;
    var scaledHeight := height * scale;
    var x := (canvasSize - scaledWidth) / 2.0;
    var y := (canvasSize - scaledHeight) / 2.0;
    if IsPortrait(width, height) then
      var headOffset := (canvasSize - scaledHeight) * HeadRaise;
      Placement(scale, x, y - headOffset)
    else
      Placement(scale, x, y)
  }

  /** One scale for both axes: the longer side becomes exactly 95% of the
      frame, the shorter side at most that, so the whole image is visible and
      neither side reaches the frame's edge (a fit, not a fill). The aspect
      ratio is kept. */
  lemma PlacementFitsFrame(width: real, height: real, canvasSize: real)
    requires width > 0.0 && height > 0.0 && canvasSize > 0.0
    ensures var p := CalculateOptimalPosition(width, height, canvasSize);
      && p.scale > 0.0
      && width * p.scale <= FitFraction * canvasSize
      && height * p.scale <= FitFraction * canvasSize
      && (width * p.scale == FitFraction * canvasSize || height * p.scale == FitFraction * canvasSize)
      && (width >= height ==> width * p.scale == FitFraction * canvasSize)
      && (height >= width ==> height * p.scale == FitFraction * canvasSize)
      && (width * p.scale) * height == (height * p.scale) * width
      && width * p.scale < canvasSize && height * p.scale < canvasSize
  {
    var p := CalculateOptimalPosition(width, height, canvasSize);
    var scaleX := canvasSize / width;
    var scaleY := canvasSize / height;
    assert width * scaleX == canvasSize;
    assert height * scaleY == canvasSize;
    if width >= height {
      assert scaleX <= scaleY by {
        assert canvasSize * height <= canvasSize * width;
      }
      assert p.scale == scaleX * FitFraction;
      assert width * p.scale == FitFraction * canvasSize;
      assert height * p.scale <= FitFraction * canvasSize by {
        assert height * p.scale == (height * scaleX) * FitFraction;
        assert height * scaleX <= width * scaleX;
      }
    } else {
      assert scaleY < scaleX by {
        assert canvasSize * width < canvasSize * height;
      }
      assert p.scale == scaleY * FitFraction;
      assert height * p.scale == FitFraction * canvasSize;
      assert width * p.scale <= FitFraction * canvasSize by {
        assert width * p.scale == (width * scaleY) * FitFraction;
        assert width * scaleY <= height * scaleY;
      }
    }
  }

  /** The image is centred horizontally: equal margins on the left and the
      right, both non-negative. */
  lemma HorizontallyCentred(width: real, height: real, canvasSize: real)
    requires width > 0.0 && height > 0.0 && canvasSize > 0.0
    ensures var p := CalculateOptimalPosition(width, height, canvasSize);
      && p.x > 0.0
      && p.x + width * p.scale < canvasSize
      && p.x == canvasSize - (p.x + width * p.scale)
  {
    PlacementFitsFrame(width, height, canvasSize);
  }

  /** An image that is not taller than wide is centred vertically: equal
      margins above and below. */
  lemma LandscapeVerticallyCentred(width: real, height: real, canvasSize: real)
    requires width > 0.0 && height > 0.0 && canvasSize > 0.0
    requires height <= width
    ensures var p := CalculateOptimalPosition(width, height, canvasSize);
      && p.y > 0.0
      && p.y + height * p.scale < canvasSize
      && p.y == canvasSize - (p.y + height * p.scale)
  {
    PlacementFitsFrame(width, height, canvasSize);
  }

  /** A portrait image sits at 40% of the vertical slack: still wholly inside
      the frame, and strictly above centre (the top margin is smaller than
      the bottom margin). */
  lemma PortraitRaised(width: real, height: real, canvasSize: real)
    requires width > 0.0 && height > 0.0 && canvasSize > 0.0
    requires height > width
    ensures var p := CalculateOptimalPosition(width, height, canvasSize);
      && p.y == 0.4 * (canvasSize - height * p.scale)
      && p.y > 0.0
      && p.y + height * p.scale < canvasSize
      && p.y < canvasSize - (p.y + height * p.scale)
  {
    PlacementFitsFrame(width, height, canvasSize);
  }

  /** The image drawn at `p` lies wholly inside a `canvasSize` square. */
  predicate InsideFrame(p: Placement, width: real, height: real, canvasSize: real) {
    && p.x >= 0.0 && p.y >= 0.0
    && p.x + width * p.scale <= canvasSize
    && p.y + height * p.scale <= canvasSize
  }

  /** Whatever the aspect ratio, no part of the image is cut off by the frame. */
  lemma PlacementInsideFrame(width: real, height: real, canvasSize: real)
    requires width > 0.0 && height > 0.0 && canvasSize > 0.0
    ensures InsideFrame(CalculateOptimalPosition(width, height, canvasSize), width, height, canvasSize)
  {
    HorizontallyCentred(width, height, canvasSize);
    if IsPortrait(width, height) {
      PortraitRaised(width, height, canvasSize);
    } else {
      LandscapeVerticallyCentred(width, height, canvasSize);
    }
  }

  /** A 400 x 600 portrait in the 600-pixel frame: scale 0.95, drawn 380 x 570
      at (110, 12). */
  lemma PortraitScenario()
    ensures CalculateOptimalPosition(400.0, 600.0, 600.0) == Placement(0.95, 110.0, 12.0)
  {
  }
}
