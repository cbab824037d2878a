/** The editor and result state of the `App` component in src/App.tsx: the
    `useState` slots become fields of one object, and each handler becomes a
    method that overwrites the slots it sets. Asynchronous steps (image
    decoding, `toBlob`) are folded into the handler that starts them, with
    their outcomes passed in as parameters. */
module App {
  import opened Common
  import Geometry
  import Rotation
  import opened CropModel
  import Validator

  /** What the model keeps of a browser `File`: its name and MIME type. */
  datatype File = File(name: string, mimeType: string)

  /** `file.type.startsWith('image/')`. */
  predicate IsImageFile(f: File) {
    "image/" <= f.mimeType
  }

  /** The composed passport photo: the frame canvas, where the image was
      drawn into it, and the encoded PNG data URL. */
  datatype PassportPhoto = PassportPhoto(
    canvas: Validator.Canvas, placement: Geometry.Placement, dataUrl: string)

  class PassportApp {
    var selectedImage: Option<File>
    var editedImage: Option<string>
    var processedImage: Option<string>
    var error: Option<string>
    var photoValidation: Option<Validator.Validation>
    var showEditor: bool
    var rotation: real
    var crop: Crop

    /** The crop stays within what the sliders can produce, the editor is
        only open on a selected file, and only image files are selected. */
    ghost predicate Valid()
      reads this
    {
      && InSliderRange(crop)
      && (showEditor ==> selectedImage.Some?)
      && (selectedImage.Some? ==> IsImageFile(selectedImage.value))
    }

    /** Rotation and crop are back at their initial values. */
    ghost predicate EditsAtDefault()
      reads this
    {
      rotation == 0.0 && crop == DefaultCrop
    }

    /** The state right after `file` was chosen: editor open on it, edits at
        their defaults, and every earlier result and error cleared. */
    ghost predicate OpenedOn(file: File)
      reads this
    {
      && selectedImage == Some(file)
      && editedImage == None && processedImage == None
      && error == None && photoValidation == None
      && showEditor
      && EditsAtDefault()
    }

    /** The initial values of the `useState` hooks. */
    constructor ()
      ensures Valid()
      ensures selectedImage == None && editedImage == None && processedImage == None
      ensures error == None && photoValidation == None && !showEditor
      ensures EditsAtDefault()
    {
      selectedImage := None;
      editedImage := None;
      processedImage := None;
      error := None;
      photoValidation := None;
      showEditor := false;
      rotation := 0.0;
      crop := DefaultCrop;
    }

    /** The body shared by `handleImageSelect` and `handleDrop` once the
        first file is known to be an image. */
    method OpenInEditor(file: File)
      requires IsImageFile(file)
      modifies this
      ensures Valid() && OpenedOn(file)
    {
      selectedImage := Some(file);
      editedImage := None;
      processedImage := None;
      error := None;
      photoValidation := None;
      showEditor := true;
      rotation := 0.0;
      crop := DefaultCrop;
    }

    /** `handleImageSelect`: the first chosen file, if it is an image, opens
        the editor afresh; anything else leaves the state untouched. */
    method HandleImageSelect(files: seq<File>)
      requires Valid()
      modifies this
      ensures Valid()
      ensures |files| > 0 && IsImageFile(files[0]) ==> OpenedOn(files[0])
      ensures !(|files| > 0 && IsImageFile(files[0])) ==> unchanged(this)
    {
      if |files| > 0 && IsImageFile(files[0]) {
        OpenInEditor(files[0]);
      }
    }

    /** `handleDrop`: the same rule for the first dropped file. */
    method HandleDrop(files: seq<File>)
      requires Valid()
      modifies this
      ensures Valid()
      ensures |files| > 0 && IsImageFile(files[0]) ==> OpenedOn(files[0])
      ensures !(|files| > 0 && IsImageFile(files[0])) ==> unchanged(this)
    {
      if |files| > 0 {
        var file := files[0];
        if IsImageFile(file) {
          OpenInEditor(file);
        }
      }
    }

    /** `rotateImage`: a quarter turn, normalised by JavaScript's `%`. */
    method RotateImage(dir: Rotation.Direction)
      requires Valid()
      modifies this`rotation
      ensures Valid()
      ensures rotation == Rotation.QuarterTurn(old(rotation), dir)
      ensures -360.0 < rotation < 360.0
    {
      rotation := Rotation.QuarterTurn(rotation, dir);
    }

    /** `rotateImageFine`: one degree, not normalised. */
    method RotateImageFine(dir: Rotation.Direction)
      requires Valid()
      modifies this`rotation
      ensures Valid()
      ensures rotation == Rotation.FineTurn(old(rotation), dir)
    {
      rotation := Rotation.FineTurn(rotation, dir);
    }

    /** `setRotationExact`: the entered number is stored as it is. */
    method SetRotationExact(degrees: real)
      requires Valid()
      modifies this`rotation
      ensures Valid()
      ensures rotation == degrees
    {
      rotation := degrees;
    }

    /** The X-position slider; its range 0-100 comes from the input element. */
    method SetCropX(value: real)
      requires Valid()
      requires 0.0 <= value <= 100.0
      modifies this`crop
      ensures Valid()
      ensures crop == old(crop).(x := value)
    {
      crop := crop.(x := value);
    }

    /** The Y-position slider, range 0-100. */
    method SetCropY(value: real)
      requires Valid()
      requires 0.0 <= value <= 100.0
      modifies this`crop
      ensures Valid()
      ensures crop == old(crop).(y := value)
    {
      crop := crop.(y := value);
    }

    /** The width slider, range 20-100. */
    method SetCropWidth(value: real)
      requires Valid()
      requires MinCropPercent <= value <= 100.0
      modifies this`crop
      ensures Valid()
      ensures crop == old(crop).(width := value)
    {
      crop := crop.(width := value);
    }

    /** The height slider, range 20-100. */
    method SetCropHeight(value: real)
      requires Valid()
      requires MinCropPercent <= value <= 100.0
      modifies this`crop
      ensures Valid()
      ensures crop == old(crop).(height := value)
    {
      crop := crop.(height := value);
    }

    /** `applyEdits`, carried through to its final callback. The decoded
        image's size, whether each canvas gets a 2D context, and the URL of
        the PNG blob (`None` when `toBlob` yields null) are inputs. Returns the
        size of the cropped canvas when one is made. Rotation only affects the
        pixels drawn, which are not modelled. */
    method ApplyEdits(imageWidth: nat, imageHeight: nat, contextAvailable: bool,
                      croppedContextAvailable: bool, blobUrl: Option<string>)
      returns (cropped: Option<(nat, nat)>)
      requires Valid()
      modifies this`editedImage, this`showEditor
      ensures Valid()
      ensures selectedImage.None? || !contextAvailable || !croppedContextAvailable ==>
        cropped == None && unchanged(this)
      ensures selectedImage.Some? && contextAvailable && croppedContextAvailable ==>
        cropped == Some(CroppedCanvasSize(ToPixels(crop, imageWidth, imageHeight)))
      ensures selectedImage.Some? && contextAvailable && croppedContextAvailable && blobUrl.Some? ==>
        editedImage == blobUrl && !showEditor
      ensures blobUrl.None? ==> unchanged(this)
    {
      cropped := None;
      if selectedImage.None? || !contextAvailable {
        return;
      }
      // The work canvas takes the image's size; the crop is converted
      // against it.
      var region := ToPixels(crop, imageWidth, imageHeight);
      if !croppedContextAvailable {
        return;
      }
      SliderCropGeometry(crop, imageWidth, imageHeight);
      cropped := Some(CroppedCanvasSize(region));
      if blobUrl.Some? {
        editedImage := blobUrl;
        showEditor := false;
      }
    }

    /** `resetEdits`: rotation and crop back to their defaults, nothing else. */
    method ResetEdits()
      requires Valid()
      modifies this`rotation, this`crop
      ensures Valid()
      ensures EditsAtDefault()
    {
      rotation := 0.0;
      crop := DefaultCrop;
    }

    /** The "Edit Image Again" button, shown only while an image is selected. */
    method EditAgain()
      requires Valid()
      requires selectedImage.Some?
      modifies this`showEditor
      ensures Valid()
      ensures showEditor
    {
      showEditor := true;
    }

    /** `createPassportPhoto`: a 600 x 600 canvas, the image placed by
        `calculateOptimalPosition`, then validated. Without a 2D context it
        throws before touching any state. `centreSample` stands for what
        `getImageData` reads back after drawing, `dataUrl` for `toDataURL`. */
    method CreatePassportPhoto(imageWidth: nat, imageHeight: nat, contextAvailable: bool,
                               centreSample: array<Validator.byte>, dataUrl: string)
      returns (r: Result<PassportPhoto>)
      requires Valid()
      requires imageWidth > 0 && imageHeight > 0
      requires centreSample.Length % Validator.PixelBytes == 0
      modifies this`photoValidation
      ensures Valid()
      ensures !contextAvailable ==> r.Err? && unchanged(this)
      ensures contextAvailable ==> r.Ok?
      ensures r.Ok? ==>
        && r.value.canvas == Validator.Canvas(Validator.FramePixels, Validator.FramePixels)
        && r.value.placement == Geometry.CalculateOptimalPosition(
             imageWidth as real, imageHeight as real, Validator.FramePixels as real)
        && Geometry.InsideFrame(r.value.placement, imageWidth as real, imageHeight as real,
             Validator.FramePixels as real)
        && r.value.dataUrl == dataUrl
      ensures r.Ok? ==>
        && photoValidation.Some?
        && photoValidation.value.dimensions
        && photoValidation.value.quality
        && photoValidation.value.positioning
        && (photoValidation.value.background <==> Validator.AllNearWhite(centreSample[..]))
    {
      if !contextAvailable {
        return Err("Failed to get canvas context");
      }
      var size := Validator.FramePixels;
      var canvas := Validator.Canvas(size, size);
      var placement := Geometry.CalculateOptimalPosition(
        imageWidth as real, imageHeight as real, size as real);
      Geometry.PlacementInsideFrame(imageWidth as real, imageHeight as real, size as real);
      // Asking the same canvas for its 2D context again returns the context
      // it already has.
      var validation := Validator.ValidatePassportPhoto(canvas, true, centreSample);
      photoValidation := Some(validation.value);
      return Ok(PassportPhoto(canvas, placement, dataUrl));
    }

    /** `resetApp`: back to the initial state. */
    method ResetApp()
      requires Valid()
      modifies this
      ensures Valid()
      ensures selectedImage == None && editedImage == None && processedImage == None
      ensures error == None && photoValidation == None && !showEditor
      ensures EditsAtDefault()
    {
      selectedImage := None;
      editedImage := None;
      processedImage := None;
      error := None;
      photoValidation := None;
      showEditor := false;
      rotation := 0.0;
      crop := DefaultCrop;
    }
  }
}
