/** The checks `validatePassportPhoto` in src/App.tsx runs on the composed
    passport canvas. The canvas is reduced to its size, and the 20 x 20 block
    of RGBA bytes that `getImageData` samples around its centre is an input. */
module Validator {
  import opened Common

  /** One channel value of a `Uint8ClampedArray`. */
  newtype byte = x: int | 0 <= x < 256

  /** Width and height of the passport frame in pixels (2 inches at 300 DPI). */
  const FramePixels: nat := 600

  /** A channel at or above this value counts as white. */
  const WhiteThreshold: byte := 250

  /** Bytes per RGBA pixel. */
  const PixelBytes: nat := 4

  /** The part of a canvas the checks look at. */
  datatype Canvas = Canvas(width: nat, height: nat)

  /** The four booleans `validatePassportPhoto` returns. */
  datatype Validation = Validation(dimensions: bool, background: bool, positioning: bool, quality: bool)

  /** Pixel `p` of an RGBA buffer has red, green and blue all at or above the
      threshold; its alpha byte is not looked at. */
  predicate PixelNearWhite(data: seq<byte>, p: nat)
    requires PixelBytes * p + 3 < |data|
  {
    var i := PixelBytes * p;
    data[i] >= WhiteThreshold && data[i + 1] >= WhiteThreshold && data[i + 2] >= WhiteThreshold
  }

  /** Every whole pixel of the buffer is near white. */
  predicate AllNearWhite(data: seq<byte>) {
    forall p: nat :: p < |data| / PixelBytes ==> PixelNearWhite(data, p)
  }

  /** The same scan written without the early exit: visit every pixel from
      `from` on and clear `flag` at each pixel that is not near white. */
  function ScanAll(data: seq<byte>, from: nat, flag: bool): bool
    requires from % PixelBytes == 0 && |data| % PixelBytes == 0 && from <= |data|
    decreases |data| - from
  {
    if from == |data| then flag
    else
      var white := data[from] >= WhiteThreshold && data[from + 1] >= WhiteThreshold
        && data[from + 2] >= WhiteThreshold;
      ScanAll(data, from + PixelBytes, flag && white)
  }

  /** The background loop of `validatePassportPhoto`: step through the buffer
      four bytes at a time and stop at the first pixel whose red, green or
      blue byte is below 250. The result is true exactly when every pixel is
      near white. */
  method BackgroundIsWhite(data: array<byte>) returns (background: bool)
    requires data.Length % PixelBytes == 0
    ensures background <==> AllNearWhite(data[..])
  {
    background := true;
    var i := 0;
    while i < data.Length
      invariant 0 <= i <= data.Length && i % PixelBytes == 0
      invariant forall p: nat :: p < i / PixelBytes ==> PixelNearWhite(data[..], p)
    {
      if data[i] < WhiteThreshold || data[i + 1] < WhiteThreshold || data[i + 2] < WhiteThreshold {
        background := false;
        assert !PixelNearWhite(data[..], i / PixelBytes);
        break;
      }
      assert PixelNearWhite(data[..], i / PixelBytes);
      i := i + PixelBytes;
    }
  }

  /** Scanning the rest of the buffer from `from` with a flag that records
      whether the pixels before `from` were all near white ends with the flag
      set exactly when every pixel is near white. */
  lemma {:induction false} EarlyExitAgreesWithFullScan(data: seq<byte>, from: nat, flag: bool)
    requires from % PixelBytes == 0 && |data| % PixelBytes == 0 && from <= |data|
    requires flag <==> forall p: nat :: p < from / PixelBytes ==> PixelNearWhite(data, p)
    ensures ScanAll(data, from, flag) <==> AllNearWhite(data)
    decreases |data| - from
  {
    if from < |data| {
      var q := from / PixelBytes;
      var next := flag && PixelNearWhite(data, q);
      assert next <==> forall p: nat :: p < (from + PixelBytes) / PixelBytes ==> PixelNearWhite(data, p) by {
        assert (from + PixelBytes) / PixelBytes == q + 1;
      }
      EarlyExitAgreesWithFullScan(data, from + PixelBytes, next);
    }
  }

  /** Checking every pixel without the early `break` reaches the same verdict
      as the loop: true exactly when all pixels are near white. */
  lemma FullScanAgrees(data: seq<byte>)
    requires |data| % PixelBytes == 0
    ensures ScanAll(data, 0, true) <==> AllNearWhite(data)
  {
    EarlyExitAgreesWithFullScan(data, 0, true);
  }

  /** The alpha bytes never matter: two buffers that agree on every red,
      green and blue byte get the same background verdict. */
  lemma AlphaNeverRead(data: seq<byte>, other: seq<byte>)
    requires |data| == |other|
    requires forall i :: 0 <= i < |data| && i % PixelBytes != 3 ==> data[i] == other[i]
    ensures AllNearWhite(data) <==> AllNearWhite(other)
  {
    forall p: nat | p < |data| / PixelBytes
      ensures PixelNearWhite(data, p) <==> PixelNearWhite(other, p)
    {
      var i := PixelBytes * p;
      assert i % PixelBytes == 0 && (i + 1) % PixelBytes == 1 && (i + 2) % PixelBytes == 2;
    }
  }

  /** `validatePassportPhoto`: without a 2D context it throws; otherwise the
      size is exactly the frame, the background sample is near white, the
      positioning flag is always set, and the quality flag holds when the
      width reaches the frame size. */
  method ValidatePassportPhoto(canvas: Canvas, contextAvailable: bool, sample: array<byte>)
    returns (r: Result<Validation>)
    requires sample.Length % PixelBytes == 0
    ensures r.Err? <==> !contextAvailable
    ensures r.Ok? ==> (r.value.dimensions <==> canvas.width == FramePixels && canvas.height == FramePixels)
    ensures r.Ok? ==> (r.value.background <==> AllNearWhite(sample[..]))
    ensures r.Ok? ==> r.value.positioning
    ensures r.Ok? ==> (r.value.quality <==> canvas.width >= FramePixels)
  {
    if !contextAvailable {
      return Err("Failed to get canvas context");
    }
    var dimensions := canvas.width == FramePixels && canvas.height == FramePixels;
    var background := BackgroundIsWhite(sample);
    var positioning := true;
    var quality := canvas.width >= FramePixels;
    return Ok(Validation(dimensions, background, positioning, quality));
  }
}
