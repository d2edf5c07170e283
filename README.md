# Certificate editor and token lifecycle, modelled in Dafny

This project models two small cores of a certificate generator.

The first is the browser editor `CertificateGenerator` (`script.js`). The user uploads a photo. The editor fits the photo into a fixed slot on a certificate template. The user can drag the photo within the template's photo area, crop it with a rectangular selection, and add two caption lines ("De: …", "Para: …"). The model covers the geometry: the mapping of pointer positions into canvas pixels, the fit-to-box scaling, the crop preview box, the crop selection, and the mapping of the selection back into the photo's own pixels. It also covers the drag clamp, the caption layout, the word wrapper and the character counters. Each event handler is a method of a class whose fields are the editor's fields.

The second is the token table of the backend (`backend/app.py`). A token is created UNUSED. Validating it puts it IN_USE. Completing it makes it COMPLETED. The table is a `map` from token to row. The three endpoints are pure functions that return a response and the new table. A class `TokenStore` implements each endpoint as a method and is proved equal to those functions.

Modules:
- `Maybe`: the `Option` type.
- `Geometry`: the coordinate arithmetic.
- `Certificate`: the editor class.
- `Caption`: trimming, the caption lines and their layout, and the counters.
- `Wrap`: the word wrapper.
- `Tokens`: the backend.

All coordinates are exact `real`s. Text widths come from an uninterpreted function parameter, which stands for the canvas's `measureText`. The photo is represented by its size. The drawn photo is the region of the original photo it shows, the box it was rendered into, and the fit placement.

Some behaviour of the code that the model keeps as written:
- `cancelCrop` keeps the selection rectangle, so it is not discarded. A later crop session starts with the old selection.
- A confirmed crop replaces only the drawn photo (`uploadedImage`). It does not replace `originalImage`.
- Before the template has loaded, a cropped photo is fitted into a 1832 × 1224 box. Before that point an uploaded photo uses 1832 × 1933, and so does the drag hit test.
- Nothing makes dragging and cropping mutually exclusive. `StartCropping` does not clear `isDragging`. If a drag is still open (the button was released off the canvas), a move in crop mode that is not selecting still moves the photo. `ModesExclusive` is preserved by every handler except `StartCropping`.
- The editor posts caption data to `/certificate`, but `backend/app.py` defines no such route.

## Model

| member | source | states |
|---|---|---|
| Geometry.Round | script.js:79 | `Math.round` returns the integer within one half of its argument. |
| Geometry.SlotConstants | script.js:78-79 | The slot height `round((2007-783)·1.35·1.17)` is 1933. The slot width 1832 is the template's right edge minus its left edge. |
| Geometry.ToCanvas | script.js:308-313 | A pointer position maps to canvas pixels so that the displayed canvas's top-left corner becomes (0, 0) and its bottom-right corner becomes (width, height). |
| Geometry.ToScreen | script.js:295-303 | A canvas pixel maps to the screen so that (0, 0) appears at the displayed canvas's top-left corner and (width, height) at its bottom-right corner. |
| Geometry.ToCanvasRoundTrip | script.js:308-313 | A pointer position mapped into canvas pixels, `(client − rect.left)·width/offsetWidth`, maps back to the same screen position. |
| Geometry.ToScreenRoundTrip | script.js:295-303 | A canvas pixel mapped to the screen (the drag-handle mapping) maps back to the same canvas pixel. |
| Geometry.FitToBox | script.js:194-203 | With `scale = min(tw/w, th/h)`, the photo is drawn at exactly `scale` times its size. The drawn image fits the box and fills it along at least one axis. It keeps the source's aspect ratio and is centred with non-negative, equal margins. |
| Geometry.FitToBoxIsLargest | script.js:621-630 | Every uniform scale at which the source fits the box is at most the fit scale. The fit scale itself fits, by `FitToBox`. |
| Geometry.CropDisplayBox | script.js:482-501 | Along the photo's longer side (its width when it is wider than tall, otherwise its height), the crop preview box measures exactly `min(0.8·canvas, photo)`. The box is centred on the canvas, keeps the photo's aspect ratio, and is never larger than the photo. |
| Geometry.NormalizedRect | script.js:356-359 | The selection has non-negative width and height. Its opposite corners are exactly the press point and the pointer. |
| Geometry.NormalizedRectSymmetric | script.js:350-359 | The selection is the same whichever corner the drag started from. |
| Geometry.DisplayToSource | script.js:567-574 | The preview box itself maps to the whole photo. |
| Geometry.DisplayToSourceWithin | script.js:567-574 | A selection lies inside the preview box exactly when its image lies inside the photo. |
| Geometry.DisplaySourceRoundTrip | script.js:567-574 | Mapping a selection from preview space to photo pixels and back gives the selection exactly. |
| Geometry.SourceDisplayRoundTrip | script.js:567-574 | Mapping a photo-pixel rectangle to preview space and back gives the rectangle exactly. |
| Geometry.CropRegionAsWritten | script.js:576-580 | The clamped crop has `finalX ≥ 0`, `finalY ≥ 0`, `finalX + finalWidth ≤ width` and `finalY + finalHeight ≤ height`. |
| Geometry.CropRegionAsWrittenOvershoots | script.js:577-580 | A selection that starts left of and above the photo yields a crop that reaches photo pixels outside the selection. |
| Geometry.CropRegionAsWrittenMisses | script.js:577-580 | A selection right of the photo yields a crop of negative width. The corrected crop is None. |
| Geometry.CropRegion | script.js:566-580 | The corrected crop has positive size and lies within both the photo and the mapped selection. |
| Geometry.CropRegionIsIntersection | script.js:576-580 | A point lies in the corrected crop exactly when it lies in the photo and in the mapped selection. |
| Geometry.CropRegionRefusesOnlyMisses | script.js:566-580 | Any rectangle of positive size inside both the photo and the mapped selection makes the corrected crop present, and lies inside it. So a selection is refused only when it covers no area of the photo. |
| Geometry.CropRegionInsidePhoto | script.js:571-580 | For a selection inside the photo, both crops equal the mapped selection. |
| Geometry.CropRegionAgreesWithClamp | script.js:570-580 | For a selection of positive size, the clamp as written and the intersection crop the same rectangle exactly when, on each axis, the mapped selection starts before the photo's far edge and either starts inside the photo or reaches its far edge. |
| Geometry.DragTarget | script.js:367-374 | After a drag move, y is in `[429, 429 + height]` and x ≥ 324, with x ≤ 2156 − width when width ≤ 1832. With width 1832, x is exactly 324. Inside the bounds, the photo follows the pointer exactly; past a bound it stops at that bound (324 or 2156 − width for x, 429 or 429 + height for y). |
| Geometry.HitsOnlyInSlotColumn | script.js:326-333 | With the photo at the slot's left edge, a press that the inclusive hit test accepts lies between the slot's left and right edges. |
| Geometry.DragWithoutMovingKeepsPosition | script.js:330-374 | Grabbing an in-bounds photo and moving back to the press point leaves it where it was. |
| Certificate.Render | script.js:186-211 | The rendered photo records its region and box, and is placed by `FitToBox` of the region's size into the box, so it fits the box and keeps the region's aspect ratio. |
| Certificate.CertificateGenerator.AreaHeight | script.js:328-329 | Once the template has loaded, the photo area is 1933 pixels high. Before that, it is the fallback that each use site supplies. |
| Certificate.CertificateGenerator.Pointer | script.js:308-313 | On a canvas of positive size, the event's canvas point is displayed exactly under the pointer. |
| Certificate.CertificateGenerator.constructor | script.js:22-34 | The initial state: photo at (324, 429), no images, every flag false, and an empty selection. The invariant holds, including the photo lying within its clamp range. |
| Certificate.CertificateGenerator.OnBackgroundLoaded | script.js:72-89 | The canvas takes the template's size. The photo area becomes known and the photo goes back to (324, 429). Nothing else changes. |
| Certificate.CertificateGenerator.OnImageDecoded | script.js:170-179 | The decoded photo becomes the original. The drawn photo is the whole of it fitted into 1832 × 1933. Nothing else changes. |
| Certificate.CertificateGenerator.MouseDown | script.js:307-340 | In crop mode, a press starts a zero-size selection at the pointer and never starts a drag or moves the photo. Otherwise, with a photo present, a press on the photo (edges included) starts a drag with `dragOffset = mouse − pos`. Without a photo it does nothing. |
| Certificate.CertificateGenerator.MouseMove | script.js:342-378 | While selecting, the selection becomes `NormalizedRect(start, pointer)` and stays normalised. Otherwise, during a drag with a photo, the position becomes `DragTarget`. In every other case nothing changes. The photo stays within its clamp range (x = 324, 429 ≤ y ≤ 429 + 1933) as part of the preserved invariant. |
| Certificate.CertificateGenerator.MouseUp | script.js:380-388 | Release ends the crop selection if one is in progress, and otherwise ends the drag. |
| Certificate.CertificateGenerator.StartCropping | script.js:461-470 | Without an original photo it does nothing. Otherwise it enters crop mode with the preview box of the original photo. |
| Certificate.CertificateGenerator.ConfirmCrop | script.js:560-611 | A zero-width or zero-height selection is refused, and the drawn photo, the crop mode and the selection are unchanged. A selection whose mapped image covers no area of the photo is refused the same way, and by `CropRegionRefusesOnlyMisses` only such a selection is refused. Otherwise the drawn photo becomes the crop fitted into the slot, and crop mode ends. |
| Certificate.CertificateGenerator.CancelCrop | script.js:641-647 | Crop mode and selecting end. The drawn photo, its position and the selection are untouched. |
| Wrap.Split | script.js:274 | Splitting at spaces yields at least one piece, and no piece contains a space. |
| Wrap.JoinSplit | script.js:274 | Joining the pieces with single spaces gives back the text. |
| Wrap.SplitJoin | script.js:274 | Splitting space-free words joined by single spaces gives back the words. |
| Wrap.WrapFrom | script.js:278-290 | No line produced is empty. No line at all is produced exactly when the line under construction is empty and every remaining piece is empty. |
| Wrap.Wrapped | script.js:273-291 | No wrapped line is empty. A text wraps to no lines exactly when every piece of its split is empty, that is, when it is spaces only. |
| Wrap.WrappedLinesFit | script.js:278-290 | No wrapped line is empty. A line is wider than the limit only if it is a single word of the text. |
| Wrap.WrappedJoin | script.js:273-291 | When no piece of the split is empty, the lines joined with single spaces are the text: the words in order, none lost or repeated. |
| Wrap.WrappedDropsLeadingSpaces | script.js:278-286 | Leading spaces are lost: "  b" wraps to ["b"] for every width. |
| Wrap.WrappedLines | script.js:273-291 | The loop yields the wrapped lines, and each line fits or is a single word. |
| Caption.TrimStart | script.js:232 | Removes exactly the leading white space. |
| Caption.TrimEnd | script.js:233 | Removes exactly the trailing white space. |
| Caption.Trim | script.js:232-233 | The result neither starts nor ends with white space. |
| Caption.TrimIsCut | script.js:232-233 | The trimmed text is a contiguous part of the input with only white space before and after it. |
| Caption.TrimEmptyIffBlank | script.js:235 | A text trims to "" exactly when it is all white space. |
| Caption.TrimIdempotent | script.js:232-233 | Trimming twice is trimming once. |
| Caption.TrimExamples | script.js:232-233 | Trimming " Ana " gives "Ana", and trimming "  " gives "". |
| Caption.CaptionLinesSpec | script.js:240-248 | There are 0–2 lines. There are none exactly when both fields are blank. The "De: " line comes first when the donor is non-blank, and the "Para: " line comes last when the receiver is non-blank. |
| Caption.CaptionLinesOfTrimmed | script.js:240-248 | A non-blank donor with a blank receiver gives the single line "De: " + the trimmed donor. With both fields non-blank, it gives the donor line followed by "Para: " + the trimmed receiver. |
| Caption.CaptionLinesDonorOnly | script.js:235-248 | ("Ana", "") gives ["De: Ana"]. |
| Caption.CaptionLinesBlank | script.js:235-248 | ("", "  ") gives no caption lines. |
| Caption.CaptionLinesBoth | script.js:235-248 | (" Ana ", "Bia") gives ["De: Ana", "Para: Bia"], donor first. |
| Caption.MaxWidth | script.js:250-255 | The block width is non-negative and at least the measured width of every line. |
| Caption.MaxWidthIsWidest | script.js:251-255 | The block width is at least 0 and at least every line's width. It equals some line's width unless it is 0. |
| Caption.PlaceLines | script.js:250-269 | Lines are placed in order, all starting at the left edge of a block of the widest line's width centred on the canvas, 70 px apart, with first and last baselines symmetric about 0.75·H. |
| Caption.LayoutCaption | script.js:235-270 | The placed lines are exactly the caption lines of the two fields, laid out as `PlaceLines` states. |
| Caption.DigitChar | script.js:156 | A digit's character is a decimal digit. |
| Caption.DecimalString | script.js:156 | The printed length is a non-empty string of decimal digits, with no leading zero: it starts with "0" only for 0, which prints as "0". |
| Caption.DecimalRoundTrip | script.js:156 | Reading the printed length back gives the length. |
| Caption.CharCounter | script.js:152-161 | The counter text is the length in decimal (`DecimalString`) followed by "/25", and the counter is in the alert colour exactly above 20 characters. |
| Caption.CharCounterSpec | script.js:152-161 | The counter reads "<length>/25": the part before "/25" is `DecimalString(length)`, which has no leading zero, and reads back as the length. It is in the alert colour exactly above 20 characters. |
| Caption.CharCounterExamples | script.js:156-160 | 26 characters show "26/25" in the alert colour, and 20 show "20/25" without it. |
| Tokens.TokenUrlRoundTrip | backend/app.py:65-70 | The link handed out for a token carries that token. |
| Tokens.Create | backend/app.py:44-74 | Creation answers 201 or 500, with an error body exactly for 500. |
| Tokens.Validate | backend/app.py:76-120 | Validation answers 200, 400 or 404, with an error body exactly when the answer is not 200. |
| Tokens.Complete | backend/app.py:122-148 | Completion answers 200 or 404, with an error body exactly for 404. |
| Tokens.CreateSpec | backend/app.py:44-74 | Creation answers 201 exactly for a new uuid and adds just that token, UNUSED with no completion time, with a link carrying it. A uuid already present gives 500 and no change. |
| Tokens.ValidateSpec | backend/app.py:76-116 | The answer is 404 exactly for an unknown token and 400 exactly for a completed one, and both leave the table unchanged. Otherwise the answer is 200 and the token is IN_USE afterwards. |
| Tokens.ValidateIdempotent | backend/app.py:101-116 | Validating twice gives the same answer and the same table as validating once. |
| Tokens.CompleteSpec | backend/app.py:122-144 | Completion answers 200 exactly from IN_USE, and the token then becomes COMPLETED with its time set. A missing, UNUSED or COMPLETED token gives 404 and no change. |
| Tokens.StatusesOnlyAdvance | backend/app.py:101-107 | No endpoint, taken as one atomic request, removes a token or moves its status backwards. |
| Tokens.OnlyOwnRowChanges | backend/app.py:130-133 | Every endpoint leaves all rows but its own token's unchanged. |
| Tokens.WellFormedPreserved | backend/app.py:25-33 | Every endpoint keeps the completion time recorded exactly for COMPLETED tokens. |
| Tokens.Lifecycle | backend/test_api.py:63-76 | Create, validate, validate, complete, validate answers 201, 200, 200, 200, 400. The token ends COMPLETED with its time set. |
| Tokens.CompletedIsFinal | backend/app.py:96-99 | A completed token is refused by validation (400) and by completion (404), and the table is unchanged. |
| Tokens.TokenStore.constructor | backend/app.py:20-37 | The table of a freshly created database starts empty and well formed. |
| Tokens.TokenStore.CreateToken | backend/app.py:44-74 | The response and the new table are those of `Create`. |
| Tokens.TokenStore.ValidateToken | backend/app.py:76-120 | The response and the new table are those of `Validate`. |
| Tokens.TokenStore.CompleteToken | backend/app.py:122-148 | The response and the new table are those of `Complete`, with rowcount 0 giving 404. |

## Findings

| source | as written | input that shows it | evidently intended | confidence | as-written member | corrected member |
|---|---|---|---|---|---|---|
| script.js:577-580 | The crop origin is raised to 0 without shrinking the crop size, and the size is cut only against the far edge. A selection that starts left of or above the photo therefore covers photo pixels the user did not select. A selection beyond the right or bottom edge gets a negative size. | A 100×100 photo shown unscaled at (10, 10) with the selection (0, 0, 20, 20): the crop is (0, 0, 20, 20), but only photo pixels 0–10 were selected on each axis. With the selection (200, 10, 5, 5), the crop width is −90. | Crop the intersection of the selection with the photo, and refuse a selection that covers none of it. | not executed; high | Geometry.CropRegionAsWrittenOvershoots | Geometry.CropRegion |

The editor class uses the corrected `CropRegion`. `ConfirmCrop` refuses a selection that misses the photo (`OutsidePhoto`), the same way it refuses an empty selection.

## Left out

- Canvas drawing is not modelled: `drawImage`, `fillRect`, `fillText`, the dimmed and punched-out crop preview in `drawCropSelection`, dashed strokes and `createFallbackBackground`. These produce pixels. Only the coordinates they use are modelled.
- Font metrics are left out. `measureText` is an arbitrary function from strings to widths.
- Asynchronous loading is left out: `FileReader`, image decoding, `document.fonts.load` and the `onload` of the cropped image. A decoded upload is the event `OnImageDecoded`. A confirmed crop takes effect at once.
- `downloadCertificate` and `sendCertificateDataToBackend` are left out. They are network, data-URL and download-link I/O.
- Cursor, button and display changes are left out, and so is `updateDragHandle`'s placement of the handle. The handle uses its own fallback height of 1652. Only its screen mapping is modelled, as `ToScreen`. `extractTokenFromURL` is left out.
- Flask, CORS, psycopg2 connection handling, `init_db`, `/health` and JSON encoding are left out. A failing database connection yields 500 in every endpoint. The model includes 500 only for a uuid that is already in the table.
- uuid generation is a parameter. `created_at` is not modelled, and `used_at` is a flag.
- `list_tokens` is left out. It is a read-only listing.
- Floating point is left out: all arithmetic is exact. The canvas truncates the crop size to whole pixels (`cropCanvas.width = finalWidth`), and the model does not.
- Geometry.ToCanvas requires a positive displayed canvas size. Division by a zero `offsetWidth` gives Infinity or NaN in the browser, and that case is not modelled.
- Certificate.CertificateGenerator.OnImageDecoded requires a photo of positive size. A decoded image always has one.
- Tokens.StatusesOnlyAdvance holds for requests taken one at a time: each request is modelled as one atomic step, and requests never interleave. In the code, validation reads the row (backend/app.py:84-89) and later sets IN_USE with no status guard (backend/app.py:103-106). So two validations of an UNUSED token that both read UNUSED can interleave with a completion: one validation sets IN_USE, the completion sets COMPLETED, and the other validation's update sets IN_USE again, moving the token back. Tokens.CompletedIsFinal and the promise that no endpoint moves a status backwards hold only under the same serialization.
- Tokens.TokenStore.constructor starts from a fresh database. `CREATE TABLE IF NOT EXISTS` (backend/app.py:25-26) keeps the rows of an existing table, and those rows are not modelled.
- Certificate.CertificateGenerator.ConfirmCrop requires crop mode, because the confirm button is shown only in crop mode.
- Certificate.CertificateGenerator.ConfirmCrop crops the corrected region, `CropRegion` (the part of the photo under the selection), and not the rectangle that the clamp at script.js:577-580 produces. By `CropRegionAgreesWithClamp`, for a selection of positive size the two crops differ only where, on some axis, the mapped selection either starts before the photo and ends before its far edge, or starts at or past the far edge. In the first case the editor's crop reaches past the selection's end; for a selection lying entirely before the photo, it is a strip of the photo that the model refuses. In the second case the editor gets a size of 0 or less, and the model refuses. A selection that starts inside the photo and runs past its far edge, or one that spans the photo, is cropped the same way by both. The clamp as written is modelled by `CropRegionAsWritten`.
- Caption.CharCounter takes the field's length as a parameter. In the code that length is JavaScript's `length`, measured in UTF-16 code units, so for characters outside the Basic Multilingual Plane it is larger than the number of characters; the model does not compute it from the text.
