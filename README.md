# Passport photo creator: verified model of the editor and composition logic

The application turns a user photo into a 2 x 2 inch passport photo (600 x 600
pixels at 300 DPI). Its logic lives in one React component, `App` in
`src/App.tsx`. This project models the parts of that component that compute
something, as Dafny 4.11 modules:

- `Geometry` (geometry.dfy): `calculateOptimalPosition`, the scale and the
  top-left corner at which the background-free image is drawn into the square
  frame. It is a fit policy: `min(scaleX, scaleY) * 0.95`. The image is
  centred, and a portrait image is raised by a tenth of the vertical slack.
  JavaScript numbers are modelled as Dafny `real`.
- `Rotation` (rotation.dfy): the updater functions that `rotateImage` and
  `rotateImageFine` pass to `setRotation`. This includes JavaScript's
  truncating `%` by 360 (`Rem360`), characterised by three properties and
  proved unique. `setRotationExact` passes a plain value, so it is modelled
  only by the `App` module's `SetRotationExact`.
- `CropModel` (crop.dfy): the crop rectangle in percent, its conversion to
  pixels in `applyEdits`, and the truncation that happens when the cropped
  canvas's `width`/`height` are assigned.
- `Validator` (validator.dfy): `validatePassportPhoto`, whose background check
  is a loop over the sampled RGBA bytes with an early `break`.
- `App` (app.dfy): the class `PassportApp`. Its fields are the component's
  `useState` slots and its methods are the handlers that overwrite them: file
  selection and drop, rotation, the crop sliders, apply, reset edits,
  composition of the passport photo, and reset of the whole app.
- `Common` (common.dfy): `Option` for nullable state and `Result` for steps
  that throw.

Browser services are inputs to the model. These are: whether `getContext('2d')`
returns a context, the decoded image's size, the bytes that `getImageData`
returns, and the URL produced by `toBlob`/`toDataURL`.

## Notes on the source's behaviour

- Placement fits the image inside the frame (`Math.min(scaleX, scaleY) * 0.95`,
  src/App.tsx:282), although the page text says "Subject fills entire frame"
  (src/App.tsx:411). The image always lies wholly inside the frame and never
  reaches its edges (`Geometry.PlacementFitsFrame`,
  `Geometry.PlacementInsideFrame`).
- The cropped canvas's size is the crop size in pixels assigned to the
  canvas's `width` and `height` (src/App.tsx:173-174), which truncates it to
  an integer.
- The four crop sliders write their field without clamping
  (src/App.tsx:530-569), so `x + width` can exceed 100
  (`CropModel.CropMayOverhang`).
- The four `crop-handle` elements (src/App.tsx:456-459) have no event
  handlers: the crop changes only through the sliders.

## Model

| member | source | states |
|---|---|---|
| `Geometry.CalculateOptimalPosition` | src/App.tsx:271-302 | the scale and top-left corner of the drawn image; fit, centring and inside-frame are stated by `PlacementFitsFrame`, `HorizontallyCentred`, `LandscapeVerticallyCentred`, `PortraitRaised` and `PlacementInsideFrame` |
| `Geometry.PlacementFitsFrame` | src/App.tsx:277-286 | one positive scale for both axes; the longer side becomes exactly 95% of the frame and the shorter at most that; aspect ratio kept; neither side reaches the frame size (fit, not fill) |
| `Geometry.HorizontallyCentred` | src/App.tsx:289 | left margin equals right margin, both strictly positive |
| `Geometry.LandscapeVerticallyCentred` | src/App.tsx:290-301 | an image not taller than wide has equal top and bottom margins |
| `Geometry.PortraitRaised` | src/App.tsx:294-298 | a portrait sits at 40% of the vertical slack: inside the frame and strictly above centre |
| `Geometry.PlacementInsideFrame` | src/App.tsx:271-302 | for every positive width and height, the drawn image lies wholly inside the frame |
| `Geometry.PortraitScenario` | src/App.tsx:271-302 | a 400 x 600 portrait in the 600 frame gets scale 0.95 at (110, 12) |
| `Rotation.Rem360` | src/App.tsx:115 | `n % 360` lies in (-360, 360), has the sign of `n`, and differs from `n` by whole turns |
| `Rotation.Rem360Unique` | src/App.tsx:115 | those three properties determine the remainder uniquely |
| `Rotation.Rem360OfWhole` | src/App.tsx:115 | on integers the remainder is the Euclidean remainder of the magnitude carrying the dividend's sign |
| `Rotation.QuarterTurn` | src/App.tsx:112-117 | the result of a quarter-turn press lies in (-360, 360); sign and congruence are stated by `QuarterTurnNormalised` |
| `Rotation.FineTurn` | src/App.tsx:119-125 | a fine press moves the rotation by exactly one degree, with no normalisation; see also `FineTurnExact` |
| `Rotation.QuarterTurnNormalised` | src/App.tsx:112-117 | a quarter turn gives a value in (-360, 360), on the side of zero of `prev ± 90`, congruent to it modulo 360 |
| `Rotation.QuarterTurnKeepsQuarterAngle` | src/App.tsx:112-117 | from a multiple of 90 inside (-360, 360) a quarter turn reaches another one |
| `Rotation.LeftFromZeroIsNegative` | src/App.tsx:112-117 | rotating left from 0 gives -90, not 270 |
| `Rotation.FineTurnExact` | src/App.tsx:119-125 | a fine step changes the rotation by exactly one degree, and the two directions undo each other |
| `Rotation.FullTurnScenarios` | src/App.tsx:112-125 | a quarter turn right from 270 gives 0, a fine step right from 359 gives 360 |
| `CropModel.ToPixels` | src/App.tsx:163-166 | each crop field as that percentage of the canvas width or height; its inverse and bounds are stated by `ToPixelsRoundTrip` and `SliderCropGeometry` |
| `CropModel.CroppedCanvasSize` | src/App.tsx:173-174 | the cropped canvas's width and height are the integer parts of the crop's pixel width and height |
| `CropModel.CanvasDimension` | src/App.tsx:173-174 | a non-negative size assigned to a canvas keeps its integer part |
| `CropModel.ToPixelsRoundTrip` | src/App.tsx:163-166 | converting the pixel rectangle back to percent recovers the crop on any canvas with non-zero sides |
| `CropModel.DefaultCropIsWholeCanvas` | src/App.tsx:163-174 | the default crop `{0,0,100,100}` is the whole canvas, and the cropped canvas has the canvas's size |
| `CropModel.SliderCropGeometry` | src/App.tsx:163-166 | a crop within the slider ranges keeps at least a fifth of each side, starts inside the canvas, and stays inside when `x + width <= 100` and `y + height <= 100` |
| `CropModel.CropMayOverhang` | src/App.tsx:163-174 | slider values can place the region past the canvas edge |
| `CropModel.HalfWidthScenario` | src/App.tsx:163-174 | crop `{25,0,50,100}` on 600 x 600 gives a 300 x 600 canvas |
| `Validator.BackgroundIsWhite` | src/App.tsx:223-230 | the loop with its early `break` returns true exactly when every pixel has R, G and B at least 250 |
| `Validator.EarlyExitAgreesWithFullScan` | src/App.tsx:223-230 | scanning every remaining pixel with a flag that covers the earlier ones ends true exactly when all pixels are near white |
| `Validator.FullScanAgrees` | src/App.tsx:223-230 | checking all pixels without the `break` gives the loop's verdict |
| `Validator.AlphaNeverRead` | src/App.tsx:226 | buffers that agree on every R, G and B byte get the same verdict |
| `Validator.ValidatePassportPhoto` | src/App.tsx:202-239 | throws exactly without a 2D context; otherwise `dimensions` iff 600 x 600, `background` iff the sample is near white, `positioning` always, `quality` iff width at least 600 |
| `App.IsImageFile` | src/App.tsx:70 | a file is accepted exactly when its MIME type starts with `image/`; used by `HandleImageSelect` and `HandleDrop` |
| `App.PassportApp.constructor` | src/App.tsx:41-65 | initial state: nothing selected, editor closed, rotation 0, crop `{0,0,100,100}` |
| `App.PassportApp.OpenInEditor` | src/App.tsx:71-78 | the chosen image is selected, earlier results and errors are cleared, the editor opens, and the edits are reset |
| `App.PassportApp.HandleImageSelect` | src/App.tsx:68-80 | an image as first file opens the editor afresh on it; anything else changes nothing |
| `App.PassportApp.HandleDrop` | src/App.tsx:92-110 | the same rule for the first dropped file |
| `App.PassportApp.RotateImage` | src/App.tsx:112-117 | rotation becomes the quarter turn of the old one and lies in (-360, 360); only rotation changes |
| `App.PassportApp.RotateImageFine` | src/App.tsx:119-125 | rotation moves by one degree, unnormalised; only rotation changes |
| `App.PassportApp.SetRotationExact` | src/App.tsx:127-129 | rotation is the entered value verbatim |
| `App.PassportApp.SetCropX` | src/App.tsx:527-530 | only the crop's x changes, to the slider value |
| `App.PassportApp.SetCropY` | src/App.tsx:540-543 | only the crop's y changes, to the slider value |
| `App.PassportApp.SetCropWidth` | src/App.tsx:553-556 | only the crop's width changes, to the slider value |
| `App.PassportApp.SetCropHeight` | src/App.tsx:566-569 | only the crop's height changes, to the slider value |
| `App.PassportApp.ApplyEdits` | src/App.tsx:131-195 | with no image or no context nothing changes; otherwise the cropped canvas has the truncated pixel size of the crop, and a produced blob becomes the edited image and closes the editor |
| `App.PassportApp.ResetEdits` | src/App.tsx:197-200 | rotation 0 and the default crop; no other field changes |
| `App.PassportApp.EditAgain` | src/App.tsx:594-614 | reopens the editor on the selected image |
| `App.PassportApp.CreatePassportPhoto` | src/App.tsx:241-269 | without a context it throws and changes nothing; otherwise the canvas is 600 x 600, the image is placed by the optimal position inside the frame, and the stored validation reports dimensions, quality and positioning true |
| `App.PassportApp.ResetApp` | src/App.tsx:351-363 | every modelled field returns to its initial value |

Every `PassportApp` method also preserves `Valid()`. That invariant says: the
crop stays within the slider ranges, the editor is open only on a selected
file, and a selected file is always an image.

## Left out

- Background removal with `removeBackground` (an external library) and the
  asynchronous `processImage` flow around it, which sets `processedImage`,
  `error` and `isProcessing`. In the model only the resets touch
  `processedImage` and `error`, and `isProcessing` is not modelled.
- Raster work is not modelled: `drawImage`, `translate`/`rotate`,
  `fillRect`, `getImageData`, `toBlob`/`toDataURL` and image decoding. These
  are browser services over floating-point pixels. Their results are
  parameters of the model. For the same reason, rotation does not affect the
  modelled output of `ApplyEdits`.
- Geometry.CalculateOptimalPosition: requires a positive width and height. In
  JavaScript a zero side gives an infinite scale or NaN. A decoded image with
  a zero side is not modelled.
- NaN and infinities in general. For example, once the rotation were
  infinite, a quarter turn would give NaN (`Infinity % 360`,
  src/App.tsx:115). IEEE-754 rounding is not modelled either: all arithmetic
  is on exact reals.
- CropModel.CanvasDimension: does not model the wrap-around modulo 2^32 of
  the unsigned-long conversion. Sizes are bounded by the image's size, far
  below that.
- Stale closures: `applyEdits` completes asynchronously and reads
  `crop`/`rotation` as they were when it started; `processImage` likewise
  reads `selectedImage` and `editedImage` at its start. The model folds
  `applyEdits` into a single step.
- The `isDragOver` flag, `handleDragOver`/`handleDragLeave`, `downloadImage`,
  clearing the file input's value in `resetApp`, and all JSX rendering. These
  are user-interface plumbing.
- The head-size, eye-level and frame-utilisation constants in
  `PASSPORT_SPECS`. No code path reads them.
