/**
 * The interactive state of the certificate editor: the uploaded photo,
 * where it sits on the template, the drag gesture that moves it, and the
 * crop session that replaces it by a part of the original photo. Each
 * handler is a method that updates the fields in place; drawing, cursor
 * and button changes are not part of the model.
 */
module Certificate {
  import opened Maybe
  import opened Geometry

  /**
   * The photo drawn on the certificate: the part of the original photo it
   * shows (in the original's pixels), the box it was rendered into, and how
   * that part was fitted into the box.
   */
  datatype Overlay = Overlay(region: Rect, box: Size, placement: Placement)

  /** Renders `region` of the original photo into a transparent `box`-sized raster. */
  function Render(region: Rect, box: Size): (o: Overlay)
    requires PositiveRect(region) && PositiveSize(box)
    ensures o.region == region && o.box == box
    ensures o.placement.drawWidth <= box.width && o.placement.drawHeight <= box.height
    ensures o.placement.drawWidth * region.height == o.placement.drawHeight * region.width
    ensures o.placement == FitToBox(Size(region.width, region.height), box)
  {
    Overlay(region, box, FitToBox(Size(region.width, region.height), box))
  }

  /** What a click on the confirm button did. */
  datatype CropOutcome =
    | Cropped
    | NoSelection   // the selection has no area: the user is asked to select one
    | OutsidePhoto  // the selection does not cover any part of the photo

  /** A snapshot of every field of the editor, for stating what a handler changes. */
  datatype EditorState = EditorState(
    canvas: Size, areaKnown: bool,
    originalImage: Option<Size>, uploadedImage: Option<Overlay>,
    imagePosition: Point, isDragging: bool, dragOffset: Point,
    isCropping: bool, isSelectingCrop: bool,
    cropStart: Point, cropEnd: Point, cropRect: Rect, cropImagePos: Option<Rect>)

  class CertificateGenerator {
    /** Size of the canvas bitmap; the template's size once it has loaded. */
    var canvas: Size
    /** Whether the photo area size has been computed from the loaded template. */
    var areaKnown: bool
    /** The full-resolution photo as uploaded. */
    var originalImage: Option<Size>
    /** The photo as drawn: fitted into the photo slot, possibly cropped. */
    var uploadedImage: Option<Overlay>
    var imagePosition: Point
    var isDragging: bool
    var dragOffset: Point
    var isCropping: bool
    var isSelectingCrop: bool
    var cropStart: Point
    var cropEnd: Point
    /** The crop selection, in canvas pixels. */
    var cropRect: Rect
    /** Where the original photo is shown while cropping; unset before the first crop. */
    var cropImagePos: Option<Rect>

    ghost predicate Valid()
      reads this
    {
      && PositiveSize(canvas)
      && (originalImage.Some? ==> PositiveSize(originalImage.value))
      && cropRect.width >= 0.0 && cropRect.height >= 0.0
      && imagePosition.x == SlotLeft && SlotTop <= imagePosition.y <= SlotTop + 1933.0
      && (isCropping ==> originalImage.Some? && cropImagePos.Some? && PositiveRect(cropImagePos.value))
    }

    ghost function State(): EditorState
      reads this
    {
      EditorState(canvas, areaKnown, originalImage, uploadedImage, imagePosition, isDragging,
                  dragOffset, isCropping, isSelectingCrop, cropStart, cropEnd, cropRect, cropImagePos)
    }

    /** A drag and a crop session never run at the same time. */
    ghost predicate ModesExclusive()
      reads this
    {
      isCropping ==> !isDragging
    }

    /**
     * Height of the photo area: the computed slot height, 1933 pixels, once
     * the template has loaded, and the caller's fallback before.
     */
    function AreaHeight(fallback: real): (h: real)
      reads this
      ensures areaKnown ==> h == 1933.0
      ensures !areaKnown ==> h == fallback
    {
      SlotConstants();
      if areaKnown then SlotHeight as real else fallback
    }

    /**
     * The pointer position of an event, in canvas pixels; on a canvas of
     * positive size it is the canvas point displayed under the pointer.
     */
    function Pointer(clientX: real, clientY: real, l: Layout): (p: Point)
      reads this
      requires l.offsetWidth > 0.0 && l.offsetHeight > 0.0
      ensures PositiveSize(canvas) ==> ToScreen(p, l, canvas) == Point(clientX, clientY)
    {
      if PositiveSize(canvas) then
        ToCanvasRoundTrip(clientX, clientY, l, canvas);
        ToCanvas(clientX, clientY, l, canvas)
      else
        ToCanvas(clientX, clientY, l, canvas)
    }

    /** The editor as the page opens it, on a canvas of the given size. */
    constructor (initialCanvas: Size)
      requires PositiveSize(initialCanvas)
      ensures Valid() && ModesExclusive()
      ensures State() == EditorState(initialCanvas, false, None, None, Point(SlotLeft, SlotTop), false,
                                     Point(0.0, 0.0), false, false, Point(0.0, 0.0), Point(0.0, 0.0),
                                     Rect(0.0, 0.0, 0.0, 0.0), None)
    {
      canvas := initialCanvas;
      areaKnown := false;
      originalImage := None;
      uploadedImage := None;
      imagePosition := Point(SlotLeft, SlotTop);
      isDragging := false;
      dragOffset := Point(0.0, 0.0);
      isCropping := false;
      cropStart := Point(0.0, 0.0);
      cropEnd := Point(0.0, 0.0);
      cropRect := Rect(0.0, 0.0, 0.0, 0.0);
      isSelectingCrop := false;
      cropImagePos := None;
    }

    /**
     * The template has loaded: the canvas takes its size, the photo area
     * becomes known and the photo returns to the slot origin.
     */
    method OnBackgroundLoaded(background: Size)
      requires Valid() && PositiveSize(background)
      modifies this
      ensures Valid()
      ensures State() == old(State()).(canvas := background, areaKnown := true,
                                       imagePosition := Point(SlotLeft, SlotTop))
    {
      canvas := background;
      areaKnown := true;
      imagePosition := Point(SlotLeft, SlotTop);
    }

    /**
     * A photo has been decoded: it becomes the original, and the drawn photo
     * is the whole of it fitted into the 1832 x 1933 photo slot.
     */
    method OnImageDecoded(image: Size)
      requires Valid() && PositiveSize(image)
      modifies this
      ensures Valid()
      ensures uploadedImage.Some? && uploadedImage.value.box == Size(SlotWidth, 1933.0)
      ensures State() == old(State()).(originalImage := Some(image),
                                       uploadedImage := Some(Render(ImageRect(image), Size(SlotWidth, 1933.0))))
    {
      SlotConstants();
      originalImage := Some(image);
      var height := AreaHeight(1933.0);
      uploadedImage := Some(Render(ImageRect(image), Size(SlotWidth, height)));
    }

    /**
     * Pointer pressed. In crop mode it starts a selection of zero size at the
     * pointer and never touches the photo or the drag. Otherwise, with a
     * photo present, a press on the photo (edges included) starts a drag and
     * records the grab offset.
     */
    method MouseDown(clientX: real, clientY: real, l: Layout)
      requires Valid() && l.offsetWidth > 0.0 && l.offsetHeight > 0.0
      modifies this
      ensures Valid()
      ensures old(ModesExclusive()) ==> ModesExclusive()
      ensures var mouse := old(Pointer(clientX, clientY, l));
              old(isCropping) ==>
                State() == old(State()).(isSelectingCrop := true, cropStart := mouse, cropEnd := mouse,
                                         cropRect := Rect(mouse.x, mouse.y, 0.0, 0.0))
      ensures var mouse := old(Pointer(clientX, clientY, l));
              var hit := old(uploadedImage.Some? && Hits(mouse, imagePosition, SlotWidth, AreaHeight(1933.0)));
              !old(isCropping) ==>
                State() == if hit then old(State()).(isDragging := true,
                                                     dragOffset := Point(mouse.x - old(imagePosition.x),
                                                                         mouse.y - old(imagePosition.y)))
                           else old(State())
    {
      var mouse := Pointer(clientX, clientY, l);
      if isCropping {
        isSelectingCrop := true;
        cropStart := mouse;
        cropEnd := mouse;
        cropRect := Rect(mouse.x, mouse.y, 0.0, 0.0);
        return;
      }
      if uploadedImage.None? {
        return;
      }
      var width := SlotWidth;
      var height := AreaHeight(1933.0);
      if Hits(mouse, imagePosition, width, height) {
        isDragging := true;
        dragOffset := Point(mouse.x - imagePosition.x, mouse.y - imagePosition.y);
      }
    }

    /**
     * Pointer moved. While selecting a crop, the selection follows the
     * pointer and stays normalised, and the preview box is recomputed.
     * Otherwise, during a drag with a photo present, the photo follows the
     * pointer, clamped to the template's photo area.
     */
    method MouseMove(clientX: real, clientY: real, l: Layout)
      requires Valid() && l.offsetWidth > 0.0 && l.offsetHeight > 0.0
      modifies this
      ensures Valid()
      ensures old(ModesExclusive()) ==> ModesExclusive()
      ensures cropRect.width >= 0.0 && cropRect.height >= 0.0
      ensures var mouse := old(Pointer(clientX, clientY, l));
              old(isCropping && isSelectingCrop) ==>
                State() == old(State()).(cropEnd := mouse, cropRect := NormalizedRect(cropStart, mouse),
                                         cropImagePos := Some(old(CropDisplayBox(canvas, originalImage.value))))
      ensures var mouse := old(Pointer(clientX, clientY, l));
              !old(isCropping && isSelectingCrop) && old(isDragging && uploadedImage.Some?) ==>
                State() == old(State()).(imagePosition :=
                                           DragTarget(mouse, dragOffset, SlotWidth, AreaHeight(1933.0)))
      ensures !old(isCropping && isSelectingCrop) && !old(isDragging && uploadedImage.Some?) ==>
                State() == old(State())
    {
      var mouse := Pointer(clientX, clientY, l);
      if isCropping && isSelectingCrop {
        cropEnd := mouse;
        cropRect := NormalizedRect(cropStart, cropEnd);
        cropImagePos := Some(CropDisplayBox(canvas, originalImage.value));
        return;
      }
      if !isDragging || uploadedImage.None? {
        return;
      }
      var height := AreaHeight(1933.0);
      SlotConstants();
      imagePosition := DragTarget(mouse, dragOffset, SlotWidth, height);
    }

    /** Pointer released: it ends a crop selection if one is running, and otherwise ends the drag. */
    method MouseUp()
      requires Valid()
      modifies this
      ensures Valid()
      ensures old(ModesExclusive()) ==> ModesExclusive()
      ensures State() == if old(isCropping && isSelectingCrop) then old(State()).(isSelectingCrop := false)
                         else old(State()).(isDragging := false)
    {
      if isCropping && isSelectingCrop {
        isSelectingCrop := false;
        return;
      }
      isDragging := false;
    }

    /**
     * Enters crop mode and shows the whole original photo in the preview
     * box; without an uploaded photo it does nothing. The previous selection
     * is kept.
     */
    method StartCropping()
      requires Valid()
      modifies this
      ensures Valid()
      ensures old(originalImage.None?) ==> State() == old(State())
      ensures old(originalImage.Some?) ==>
                State() == old(State()).(isCropping := true,
                                         cropImagePos := Some(old(CropDisplayBox(canvas, originalImage.value))))
    {
      if originalImage.None? {
        return;
      }
      isCropping := true;
      cropImagePos := Some(CropDisplayBox(canvas, originalImage.value));
    }

    /**
     * Applies the crop. A selection without area is refused, and so is one
     * that covers no part of the photo; both leave every field as it was.
     * Otherwise the selected part of the original photo, mapped into its
     * pixels and cut to its bounds, is fitted into the photo slot and
     * becomes the drawn photo, and crop mode ends.
     */
    method ConfirmCrop() returns (outcome: CropOutcome)
      requires Valid() && isCropping
      modifies this
      ensures Valid()
      ensures old(ModesExclusive()) ==> ModesExclusive()
      ensures outcome == NoSelection <==> old(cropRect.width <= 0.0 || cropRect.height <= 0.0)
      ensures outcome != Cropped ==> State() == old(State())
      ensures outcome == OutsidePhoto <==>
                old(PositiveRect(cropRect) &&
                    CropRegion(cropRect, cropImagePos.value, originalImage.value).None?)
      ensures outcome == Cropped ==>
                var region := old(CropRegion(cropRect, cropImagePos.value, originalImage.value)).value;
                && Within(region, old(ImageRect(originalImage.value)))
                && State() == old(State()).(uploadedImage := Some(Render(region, Size(SlotWidth, old(AreaHeight(1224.0))))),
                                            isCropping := false, isSelectingCrop := false)
    {
      if cropRect.width <= 0.0 || cropRect.height <= 0.0 {
        return NoSelection;
      }
      var region := CropRegion(cropRect, cropImagePos.value, originalImage.value);
      if region.None? {
        return OutsidePhoto;
      }
      var height := AreaHeight(1224.0);
      SlotConstants();
      uploadedImage := Some(Render(region.value, Size(SlotWidth, height)));
      CancelCrop();
      return Cropped;
    }

    /**
     * Leaves crop mode. The drawn photo, its position and the selection
     * rectangle are left as they are.
     */
    method CancelCrop()
      requires Valid()
      modifies this
      ensures Valid()
      ensures old(ModesExclusive()) ==> ModesExclusive()
      ensures State() == old(State()).(isCropping := false, isSelectingCrop := false)
    {
      isCropping := false;
      isSelectingCrop := false;
    }
  }
}
