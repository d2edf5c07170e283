/** The standard optional-value wrapper used by the other modules. */
module Maybe {
  datatype Option<+T> = None | Some(value: T)
}

/**
 * Coordinate arithmetic of the certificate editor: mapping pointer
 * positions into canvas pixels, fitting a photo into its slot, the crop
 * preview box, the crop rectangle and its mapping back into the pixels of
 * the original photo, and the clamp that keeps a dragged photo on the
 * template. Every quantity is an exact `real`.
 */
module Geometry {
  import opened Maybe

  datatype Point = Point(x: real, y: real)
  datatype Size = Size(width: real, height: real)
  datatype Rect = Rect(x: real, y: real, width: real, height: real)

  /** The part of a pointer event and of the page layout the handlers read. */
  datatype Layout = Layout(left: real, top: real, offsetWidth: real, offsetHeight: real)

  /** Result of fitting a source raster into a target box. */
  datatype Placement = Placement(scale: real, drawWidth: real, drawHeight: real,
                                 offsetX: real, offsetY: real)

  predicate PositiveSize(s: Size) { s.width > 0.0 && s.height > 0.0 }
  predicate PositiveRect(r: Rect) { r.width > 0.0 && r.height > 0.0 }

  function Min(a: real, b: real): real { if a <= b then a else b }
  function Max(a: real, b: real): real { if a >= b then a else b }
  function Abs(a: real): real { if a >= 0.0 then a else -a }

  /** JavaScript's Math.round on a real: the nearest integer, halves upward. */
  function Round(x: real): (r: int)
    ensures x - 0.5 < r as real <= x + 0.5
  {
    (x + 0.5).Floor
  }

  // Layout constants of the template, in background pixels.
  const SlotLeft: real := 324.0
  const SlotTop: real := 429.0
  const SlotRight: real := 2156.0
  /** imageAreaWidth, also the fallback width when the template never loaded. */
  const SlotWidth: real := 1832.0
  /** imageAreaHeight once the template has loaded. */
  const SlotHeight: int := Round((2007 - 783) as real * 1.35 * 1.17)

  lemma SlotConstants()
    ensures SlotHeight == 1933
    ensures SlotWidth == SlotRight - SlotLeft
  {
  }

  // ---------------------------------------------------------------------
  // Screen to canvas

  /**
   * Maps a pointer position in CSS pixels to canvas bitmap pixels: the
   * displayed canvas's top-left corner goes to (0, 0) and its bottom-right
   * corner to (width, height).
   */
  function ToCanvas(clientX: real, clientY: real, l: Layout, canvas: Size): (p: Point)
    requires l.offsetWidth > 0.0 && l.offsetHeight > 0.0
    ensures clientX == l.left ==> p.x == 0.0
    ensures clientY == l.top ==> p.y == 0.0
    ensures clientX == l.left + l.offsetWidth ==> p.x == canvas.width
    ensures clientY == l.top + l.offsetHeight ==> p.y == canvas.height
  {
    MulDivCancel(canvas.width, l.offsetWidth);
    MulDivCancel(canvas.height, l.offsetHeight);
    Point((clientX - l.left) * (canvas.width / l.offsetWidth),
          (clientY - l.top) * (canvas.height / l.offsetHeight))
  }

  /**
   * The inverse mapping: where a canvas pixel appears on the screen. The
   * canvas origin appears at the displayed canvas's top-left corner and the
   * far corner at its bottom-right corner.
   */
  function ToScreen(p: Point, l: Layout, canvas: Size): (s: Point)
    requires PositiveSize(canvas)
    ensures p.x == 0.0 ==> s.x == l.left
    ensures p.y == 0.0 ==> s.y == l.top
    ensures p.x == canvas.width ==> s.x == l.left + l.offsetWidth
    ensures p.y == canvas.height ==> s.y == l.top + l.offsetHeight
  {
    MulDivCancel(l.offsetWidth, canvas.width);
    MulDivCancel(l.offsetHeight, canvas.height);
    Point(l.left + p.x * (l.offsetWidth / canvas.width),
          l.top + p.y * (l.offsetHeight / canvas.height))
  }

  lemma ScaleCancels(a: real, b: real, v: real)
    requires a > 0.0 && b > 0.0
    ensures v * (a / b) * (b / a) == v
  {
    assert (a / b) * (b / a) == 1.0;
    calc {
      v * (a / b) * (b / a);
      v * ((a / b) * (b / a));
    }
  }

  /** Mapping a pointer into the canvas and back gives the pointer position. */
  lemma ToCanvasRoundTrip(clientX: real, clientY: real, l: Layout, canvas: Size)
    requires l.offsetWidth > 0.0 && l.offsetHeight > 0.0 && PositiveSize(canvas)
    ensures ToScreen(ToCanvas(clientX, clientY, l, canvas), l, canvas) == Point(clientX, clientY)
  {
    ScaleCancels(canvas.width, l.offsetWidth, clientX - l.left);
    ScaleCancels(canvas.height, l.offsetHeight, clientY - l.top);
  }

  /** Mapping a canvas pixel to the screen and back gives the same canvas pixel. */
  lemma ToScreenRoundTrip(p: Point, l: Layout, canvas: Size)
    requires l.offsetWidth > 0.0 && l.offsetHeight > 0.0 && PositiveSize(canvas)
    ensures var s := ToScreen(p, l, canvas); ToCanvas(s.x, s.y, l, canvas) == p
  {
    ScaleCancels(l.offsetWidth, canvas.width, p.x);
    ScaleCancels(l.offsetHeight, canvas.height, p.y);
  }

  // ---------------------------------------------------------------------
  // Fit to box

  /**
   * Uniform scale-to-fit of a `source`-sized raster into a `target` box,
   * centred: the largest uniform scale at which both sides fit, so the
   * drawn image fills the box along at least one axis and leaves equal
   * transparent bands on both sides of the other.
   */
  function FitToBox(source: Size, target: Size): (p: Placement)
    requires PositiveSize(source) && PositiveSize(target)
    ensures p.scale > 0.0
    ensures p.drawWidth == source.width * p.scale && p.drawHeight == source.height * p.scale
    ensures 0.0 < p.drawWidth <= target.width && 0.0 < p.drawHeight <= target.height
    ensures p.drawWidth == target.width || p.drawHeight == target.height
    ensures p.drawWidth * source.height == p.drawHeight * source.width
    ensures p.offsetX >= 0.0 && p.offsetY >= 0.0
    ensures p.offsetX + p.drawWidth + p.offsetX == target.width
    ensures p.offsetY + p.drawHeight + p.offsetY == target.height
  {
    var scaleX := target.width / source.width;
    var scaleY := target.height / source.height;
    var scale := Min(scaleX, scaleY);
    var drawWidth := source.width * scale;
    var drawHeight := source.height * scale;
    MulLe(scale, scaleX, source.width);
    MulLe(scale, scaleY, source.height);
    MulDivCancel(target.width, source.width);
    MulDivCancel(target.height, source.height);
    Placement(scale, drawWidth, drawHeight,
              (target.width - drawWidth) / 2.0, (target.height - drawHeight) / 2.0)
  }

  /** No larger uniform scale fits: FitToBox's scale is the maximum one. */
  lemma FitToBoxIsLargest(source: Size, target: Size, s: real)
    requires PositiveSize(source) && PositiveSize(target)
    requires source.width * s <= target.width && source.height * s <= target.height
    ensures s <= FitToBox(source, target).scale
  {
    var p := FitToBox(source, target);
    assert s <= target.width / source.width by {
      assert s == (source.width * s) / source.width;
    }
    assert s <= target.height / source.height by {
      assert s == (source.height * s) / source.height;
    }
  }

  lemma MulLe(a: real, b: real, c: real)
    requires a <= b && c >= 0.0
    ensures c * a <= c * b
  {
  }

  lemma MulDivCancel(a: real, b: real)
    requires b != 0.0
    ensures b * (a / b) == a
  {
  }

  lemma WiderThanTall(image: Size)
    requires PositiveSize(image)
    ensures image.width / image.height > 1.0 <==> image.width > image.height
  {
    var aspect := image.width / image.height;
    MulDivCancel(image.width, image.height);
    MulDivCancel(image.width - image.height, image.height);
    assert image.height * (aspect - 1.0) == image.height * aspect - image.height;
    assert image.height * (aspect - 1.0) == image.width - image.height;
    MulCancel(aspect - 1.0, (image.width - image.height) / image.height, image.height);
    DivSign(image.width - image.height, image.height);
  }

  lemma MulCancel(a: real, b: real, c: real)
    requires c != 0.0 && c * a == c * b
    ensures a == b
  {
  }

  lemma DivSign(a: real, b: real)
    requires b > 0.0
    ensures a / b > 0.0 <==> a > 0.0
  {
    MulDivCancel(a, b);
    if a / b > 0.0 {
      MulLe(0.0, a / b, b);
    }
    if a > 0.0 && a / b <= 0.0 {
      MulLe(a / b, 0.0, b);
    }
  }

  /** The preview box of a photo wider than tall, given its width w. */
  lemma LandscapeBox(w: real, image: Size)
    requires PositiveSize(image) && 0.0 < w <= image.width
    ensures var h := w / (image.width / image.height);
            0.0 < h <= image.height && w * image.height == h * image.width
  {
    var aspect := image.width / image.height;
    var h := w / aspect;
    MulDivCancel(w, aspect);
    assert aspect * h == w;
    assert h * image.width == h * aspect * image.height;
    MulLe(w, image.width, image.height);
    assert h * image.width <= image.width * image.height;
    assert h * image.width <= image.height * image.width;
  }

  /** The preview box of a photo at most as wide as tall, given its height h. */
  lemma PortraitBox(h: real, image: Size)
    requires PositiveSize(image) && 0.0 < h <= image.height
    ensures var w := h * (image.width / image.height);
            0.0 < w <= image.width && w * image.height == h * image.width
  {
    var aspect := image.width / image.height;
    MulDivCancel(image.width, image.height);
    MulLe(h, image.height, aspect);
  }

  // ---------------------------------------------------------------------
  // Crop preview box

  /**
   * The box in which the whole original photo is shown while cropping:
   * centred on the canvas, aspect-preserving, never larger than the photo,
   * and limited to 80% of the canvas along the photo's longer side (its
   * width when the photo is strictly wider than tall, its height otherwise).
   */
  function CropDisplayBox(canvas: Size, image: Size): (r: Rect)
    requires PositiveSize(canvas) && PositiveSize(image)
    ensures PositiveRect(r)
    ensures r.width * image.height == r.height * image.width
    ensures r.width <= image.width && r.height <= image.height
    ensures image.width > image.height ==> r.width <= canvas.width * 0.8
    ensures image.width <= image.height ==> r.height <= canvas.height * 0.8
    ensures image.width > image.height ==> r.width == Min(canvas.width * 0.8, image.width)
    ensures image.width <= image.height ==> r.height == Min(canvas.height * 0.8, image.height)
    ensures r.x + r.width + r.x == canvas.width
    ensures r.y + r.height + r.y == canvas.height
  {
    var maxWidth := canvas.width * 0.8;
    var maxHeight := canvas.height * 0.8;
    var aspect := image.width / image.height;
    MulDivCancel(image.width, image.height);
    WiderThanTall(image);
    if aspect > 1.0 then
      var w := Min(maxWidth, image.width);
      LandscapeBox(w, image);
      Rect((canvas.width - w) / 2.0, (canvas.height - w / aspect) / 2.0, w, w / aspect)
    else
      var h := Min(maxHeight, image.height);
      PortraitBox(h, image);
      Rect((canvas.width - h * aspect) / 2.0, (canvas.height - h) / 2.0, h * aspect, h)
  }

  // ---------------------------------------------------------------------
  // Crop selection

  /**
   * The selection rectangle spanned by the press point and the current
   * pointer: non-negative size, and its opposite corners are exactly the
   * two points.
   */
  function NormalizedRect(start: Point, end: Point): (r: Rect)
    ensures r.width >= 0.0 && r.height >= 0.0
    ensures r.x <= start.x && r.x <= end.x && r.y <= start.y && r.y <= end.y
    ensures (r.x == start.x && r.x + r.width == end.x) || (r.x == end.x && r.x + r.width == start.x)
    ensures (r.y == start.y && r.y + r.height == end.y) || (r.y == end.y && r.y + r.height == start.y)
  {
    Rect(Min(start.x, end.x), Min(start.y, end.y), Abs(end.x - start.x), Abs(end.y - start.y))
  }

  /** The selection does not depend on which corner the drag started from. */
  lemma NormalizedRectSymmetric(a: Point, b: Point)
    ensures NormalizedRect(a, b) == NormalizedRect(b, a)
  {
  }

  /**
   * A display-space rectangle expressed in the original photo's pixels,
   * given the preview box the photo was drawn into: shifted by the box
   * origin and scaled by original / displayed size. The preview box itself
   * maps to the whole photo.
   */
  function DisplayToSource(r: Rect, box: Rect, image: Size): (s: Rect)
    requires PositiveRect(box)
    ensures r == box ==> s == ImageRect(image)
  {
    var scaleX := image.width / box.width;
    var scaleY := image.height / box.height;
    MulDivCancel(image.width, box.width);
    MulDivCancel(image.height, box.height);
    Rect((r.x - box.x) * scaleX, (r.y - box.y) * scaleY, r.width * scaleX, r.height * scaleY)
  }

  /** A selection lies inside the preview box exactly when its image lies inside the photo. */
  lemma DisplayToSourceWithin(r: Rect, box: Rect, image: Size)
    requires PositiveRect(box) && PositiveSize(image)
    ensures Within(r, box) <==> Within(DisplayToSource(r, box, image), ImageRect(image))
  {
    var scaleX := image.width / box.width;
    var scaleY := image.height / box.height;
    MulDivCancel(image.width, box.width);
    MulDivCancel(image.height, box.height);
    AxisWithin(r.x, r.width, box.x, box.width, scaleX, image.width, box.width);
    AxisWithin(r.y, r.height, box.y, box.height, scaleY, image.height, box.height);
  }

  /** One axis of DisplayToSourceWithin: [lo, lo + len] lies in [start, start + size] iff it does after scaling. */
  lemma AxisWithin(lo: real, len: real, start: real, size: real, k: real, a: real, b: real)
    requires a > 0.0 && b > 0.0 && k == a / b
    ensures (start <= lo && lo + len <= start + size) <==>
            (0.0 <= (lo - start) * k && (lo - start) * k + len * k <= size * k)
  {
    ScaleLe(0.0, lo - start, k, a, b);
    ScaleLe(lo - start + len, size, k, a, b);
    assert (lo - start + len) * k == (lo - start) * k + len * k;
  }

  /** Scaling by the positive factor a / b keeps the order of two reals. */
  lemma ScaleLe(u: real, v: real, k: real, a: real, b: real)
    requires a > 0.0 && b > 0.0 && k == a / b
    ensures u <= v <==> u * k <= v * k
  {
    DivSign(a, b);
    if u <= v {
      MulLe(u, v, k);
    } else {
      MulLe(v, u, k);
      if u * k <= v * k {
        MulCancel(u, v, k);
      }
    }
  }

  /** The inverse: a rectangle in photo pixels as drawn in the preview box. */
  function SourceToDisplay(r: Rect, box: Rect, image: Size): Rect
    requires PositiveSize(image)
  {
    var scaleX := box.width / image.width;
    var scaleY := box.height / image.height;
    Rect(box.x + r.x * scaleX, box.y + r.y * scaleY, r.width * scaleX, r.height * scaleY)
  }

  /** Display to source and back reproduces the selection exactly. */
  lemma DisplaySourceRoundTrip(r: Rect, box: Rect, image: Size)
    requires PositiveRect(box) && PositiveSize(image)
    ensures SourceToDisplay(DisplayToSource(r, box, image), box, image) == r
  {
    ScaleCancels(image.width, box.width, r.x - box.x);
    ScaleCancels(image.height, box.height, r.y - box.y);
    ScaleCancels(image.width, box.width, r.width);
    ScaleCancels(image.height, box.height, r.height);
  }

  /** Source to display and back reproduces the source rectangle exactly. */
  lemma SourceDisplayRoundTrip(r: Rect, box: Rect, image: Size)
    requires PositiveRect(box) && PositiveSize(image)
    ensures DisplayToSource(SourceToDisplay(r, box, image), box, image) == r
  {
    ScaleCancels(box.width, image.width, r.x);
    ScaleCancels(box.height, image.height, r.y);
    ScaleCancels(box.width, image.width, r.width);
    ScaleCancels(box.height, image.height, r.height);
  }

  /**
   * The crop rectangle as the editor computes it: the selection mapped into
   * photo pixels, its origin raised to 0, and its size cut down to what is
   * left of the photo past that origin. The origin is clamped without
   * shrinking the size, so a selection that starts left of (or above) the
   * photo yields a rectangle that covers photo pixels outside the selection.
   */
  function CropRegionAsWritten(sel: Rect, box: Rect, image: Size): (r: Rect)
    requires PositiveRect(box)
    ensures r.x >= 0.0 && r.y >= 0.0
    ensures r.x + r.width <= image.width && r.y + r.height <= image.height
  {
    var s := DisplayToSource(sel, box, image);
    var finalX := Max(0.0, s.x);
    var finalY := Max(0.0, s.y);
    Rect(finalX, finalY, Min(s.width, image.width - finalX), Min(s.height, image.height - finalY))
  }

  /** `inner` lies within `outer` (both as closed boxes). */
  predicate Within(inner: Rect, outer: Rect) {
    outer.x <= inner.x && inner.x + inner.width <= outer.x + outer.width &&
    outer.y <= inner.y && inner.y + inner.height <= outer.y + outer.height
  }

  predicate Contains(r: Rect, p: Point) {
    r.x <= p.x <= r.x + r.width && r.y <= p.y <= r.y + r.height
  }

  function ImageRect(image: Size): Rect { Rect(0.0, 0.0, image.width, image.height) }

  /**
   * A 100x100 photo shown unscaled at (10, 10) and a 20x20 selection at the
   * canvas origin: the selection covers photo pixels [0, 10) on each axis,
   * yet the clamped rectangle is 20x20 and reaches photo pixels the user
   * never selected.
   */
  lemma CropRegionAsWrittenOvershoots()
    ensures var sel := Rect(0.0, 0.0, 20.0, 20.0);
            var box := Rect(10.0, 10.0, 100.0, 100.0);
            var image := Size(100.0, 100.0);
            var r := CropRegionAsWritten(sel, box, image);
            r == Rect(0.0, 0.0, 20.0, 20.0) &&
            !Within(r, DisplayToSource(sel, box, image))
  {
    var sel := Rect(0.0, 0.0, 20.0, 20.0);
    var box := Rect(10.0, 10.0, 100.0, 100.0);
    var image := Size(100.0, 100.0);
    assert DisplayToSource(sel, box, image) == Rect(-10.0, -10.0, 20.0, 20.0);
  }

  /**
   * The same photo and a 5x5 selection right of it: the clamped rectangle has
   * negative width, while the intended crop reports that nothing was selected.
   */
  lemma CropRegionAsWrittenMisses()
    ensures var sel := Rect(200.0, 10.0, 5.0, 5.0);
            var box := Rect(10.0, 10.0, 100.0, 100.0);
            var image := Size(100.0, 100.0);
            && CropRegionAsWritten(sel, box, image).width == -90.0
            && CropRegion(sel, box, image).None?
  {
    var sel := Rect(200.0, 10.0, 5.0, 5.0);
    var box := Rect(10.0, 10.0, 100.0, 100.0);
    var image := Size(100.0, 100.0);
    assert DisplayToSource(sel, box, image) == Rect(190.0, 0.0, 5.0, 5.0);
  }

  /**
   * The crop rectangle as intended: the part of the photo covered by the
   * mapped selection, or None when the selection misses the photo entirely
   * (or only touches its edge).
   */
  function CropRegion(sel: Rect, box: Rect, image: Size): (r: Option<Rect>)
    requires PositiveRect(box) && PositiveSize(image)
    ensures r.Some? ==> PositiveRect(r.value)
    ensures r.Some? ==> Within(r.value, ImageRect(image))
    ensures r.Some? ==> Within(r.value, DisplayToSource(sel, box, image))
  {
    var s := DisplayToSource(sel, box, image);
    var x0 := Max(0.0, s.x);
    var y0 := Max(0.0, s.y);
    var x1 := Min(image.width, s.x + s.width);
    var y1 := Min(image.height, s.y + s.height);
    if x0 < x1 && y0 < y1 then Some(Rect(x0, y0, x1 - x0, y1 - y0)) else None
  }

  /**
   * CropRegion is exactly the intersection: a photo point lies in it if and
   * only if it lies in the photo and in the mapped selection.
   */
  lemma CropRegionIsIntersection(sel: Rect, box: Rect, image: Size, p: Point)
    requires PositiveRect(box) && PositiveSize(image)
    requires CropRegion(sel, box, image).Some?
    ensures Contains(CropRegion(sel, box, image).value, p) <==>
            Contains(ImageRect(image), p) && Contains(DisplayToSource(sel, box, image), p)
  {
  }

  /**
   * A selection is refused only when it covers no part of the photo: any
   * rectangle of positive size inside both the photo and the mapped
   * selection makes the crop present, and lies inside it.
   */
  lemma CropRegionRefusesOnlyMisses(sel: Rect, box: Rect, image: Size, q: Rect)
    requires PositiveRect(box) && PositiveSize(image)
    requires PositiveRect(q) && Within(q, ImageRect(image)) && Within(q, DisplayToSource(sel, box, image))
    ensures CropRegion(sel, box, image).Some?
    ensures Within(q, CropRegion(sel, box, image).value)
  {
  }

  /** When the selection lies inside the photo, nothing is cut off. */
  lemma CropRegionInsidePhoto(sel: Rect, box: Rect, image: Size)
    requires PositiveRect(box) && PositiveSize(image)
    requires PositiveRect(sel)
    requires Within(DisplayToSource(sel, box, image), ImageRect(image))
    ensures CropRegion(sel, box, image) == Some(DisplayToSource(sel, box, image))
    ensures CropRegionAsWritten(sel, box, image) == DisplayToSource(sel, box, image)
  {
    var s := DisplayToSource(sel, box, image);
    var scaleX := image.width / box.width;
    var scaleY := image.height / box.height;
    assert scaleX > 0.0 && scaleY > 0.0;
    assert s.width == sel.width * scaleX && s.height == sel.height * scaleY;
    MulLe(0.0, sel.width, scaleX);
    MulLe(0.0, sel.height, scaleY);
  }

  /**
   * On one axis, the clamp as written and the intersection agree: the mapped
   * selection `[start, start + len]` starts before the photo's far edge `size`,
   * and either starts inside the photo or reaches its far edge.
   */
  predicate ClampAgrees(start: real, len: real, size: real) {
    start < size && (0.0 <= start || size <= start + len)
  }

  /**
   * For a selection of positive size, the clamp as written crops the same
   * rectangle as `CropRegion` exactly when it agrees on both axes. So the two
   * differ only for a selection that starts before the photo and ends before
   * its far edge (the clamp then overshoots, or crops a strip of a photo the
   * selection misses), or one that starts at or past the far edge (the clamp
   * then gets a size of 0 or less, and `CropRegion` refuses).
   */
  lemma CropRegionAgreesWithClamp(sel: Rect, box: Rect, image: Size)
    requires PositiveRect(box) && PositiveSize(image) && PositiveRect(sel)
    ensures var s := DisplayToSource(sel, box, image);
            CropRegion(sel, box, image) == Some(CropRegionAsWritten(sel, box, image)) <==>
            ClampAgrees(s.x, s.width, image.width) && ClampAgrees(s.y, s.height, image.height)
  {
    var s := DisplayToSource(sel, box, image);
    var scaleX := image.width / box.width;
    var scaleY := image.height / box.height;
    assert scaleX > 0.0 && scaleY > 0.0;
    assert s.width == sel.width * scaleX && s.height == sel.height * scaleY;
    MulLe(0.0, sel.width, scaleX);
    MulLe(0.0, sel.height, scaleY);
    assert s.width > 0.0 && s.height > 0.0;
  }

  // ---------------------------------------------------------------------
  // Dragging

  /** Whether a canvas point falls on the photo drawn at `pos` (edges included). */
  predicate Hits(mouse: Point, pos: Point, width: real, height: real) {
    pos.x <= mouse.x <= pos.x + width && pos.y <= mouse.y <= pos.y + height
  }

  /**
   * With the photo at the left edge of its slot, a press the hit test
   * accepts lies in the slot's column, between its left and right edges.
   */
  lemma HitsOnlyInSlotColumn(mouse: Point, pos: Point, height: real)
    requires pos.x == SlotLeft
    requires Hits(mouse, pos, SlotWidth, height)
    ensures SlotLeft <= mouse.x <= SlotRight
  {
  }

  /**
   * The position a dragged photo is moved to: the pointer minus the grab
   * offset, clamped horizontally to [324, 2156 - width] and vertically to
   * [429, 429 + height].
   */
  function DragTarget(mouse: Point, offset: Point, width: real, height: real): (p: Point)
    requires height >= 0.0
    ensures SlotTop <= p.y <= SlotTop + height
    ensures p.x >= SlotLeft
    ensures width <= SlotWidth ==> p.x <= SlotRight - width
    ensures width == SlotWidth ==> p.x == SlotLeft
    ensures SlotLeft <= mouse.x - offset.x <= SlotRight - width ==> p.x == mouse.x - offset.x
    ensures SlotTop <= mouse.y - offset.y <= SlotTop + height ==> p.y == mouse.y - offset.y
    ensures mouse.x - offset.x < SlotLeft ==> p.x == SlotLeft
    ensures width <= SlotWidth && mouse.x - offset.x > SlotRight - width ==> p.x == SlotRight - width
    ensures mouse.y - offset.y < SlotTop ==> p.y == SlotTop
    ensures mouse.y - offset.y > SlotTop + height ==> p.y == SlotTop + height
  {
    var x := mouse.x - offset.x;
    var y := mouse.y - offset.y;
    Point(Max(SlotLeft, Min(SlotRight - width, x)), Max(SlotTop, Min(SlotTop + height, y)))
  }

  /**
   * Grabbing the photo and moving the pointer back to where it was pressed
   * leaves an in-bounds photo where it was.
   */
  lemma DragWithoutMovingKeepsPosition(mouse: Point, pos: Point, height: real)
    requires height >= 0.0
    requires SlotLeft <= pos.x <= SlotRight - SlotWidth && SlotTop <= pos.y <= SlotTop + height
    ensures DragTarget(mouse, Point(mouse.x - pos.x, mouse.y - pos.y), SlotWidth, height) == pos
  {
  }
}
