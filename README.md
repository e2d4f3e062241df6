# auto_watermark: a Dafny model of the watermarking core

auto_watermark is a small desktop tool (one PyQt5 window, `WatermarkApp`) that
stamps a watermark image onto every photograph of a folder. The user picks an
image folder, a watermark file and an output folder, sets a size slider
(5 to 50 percent of the photograph's width) and an opacity slider (0 to 100
percent), and picks a position: one of four corners or "choose it myself".
Picking a corner writes that corner's pixel offset, 10 pixels from the edges,
into the x and y text fields. The preview and each written file always take
the offset from those two fields; if either field is not an integer, both
coordinates fall back to (10, 10). Typing into a field switches the choice to
"choose it myself". The start button processes the folder's `.jpg`, `.jpeg`
and `.png` files in listing order. Each output gets the input's file name, and
the progress bar advances after each file.

The model keeps the integer logic of those handlers and treats everything the
handlers get from widgets, dialogs or image files as an input:

- `Geometry`: the margin, the watermark's resized width and height, and the
  corner resolver (`Resolve`). The resolver does no clamping.
- `Opacity`: the alpha pass. `Fade` scales one alpha value. The specification
  function `WithOpacity` describes the whole pass, and the method
  `ApplyOpacity` performs it in place on a pixel array.
- `Coords`: reading the text fields (`ParseInt`, `ParseCoords`) and writing
  them (`ShowInt`), with the round trip `int(str(n)) == n`.
- `Listing`: the extension filter (`ImageFiles`). It keeps exactly the image
  names, in listing order.
- `App`: the class `WatermarkApp` with the state the handlers update. This
  covers the chosen paths, the sliders, the position choice, the two fields,
  the progress bar, the files written, and one ordered history of the progress values and messages the user sees. The files written are kept in their own list, so their order relative to the progress values is not recorded.
  It also holds the handlers as methods, the preview as a function of that
  state, and the shared size/fade/offset step (`Compose`).

Behaviour of the code that the model keeps, and where it differs from a
cleaner design:

- The corner offset reaches a written file only through the text fields.
  `CornerChoiceReachesComposite` proves that this link is exact for the image
  from which the offset was computed, in exact integer arithmetic. In the
  code the position handler computes the width as `int(W*s/100)` and the
  writer as `int(W*(s/100))`, and in floating point these can differ (W = 100,
  s = 29 gives 29 and 28), leaving an 11 px margin instead of 10.
- Only a change of the combo box's entry runs the position handler. On a
  fresh window the bottom-right entry is already shown with fields "10" and
  "10", so re-picking it changes nothing and files are pasted at (10, 10)
  until another entry is chosen.
- The fields are computed once, from the folder's first directory entry. That
  entry is not filtered by extension, and it need not be the image that is
  previewed. Every file of a batch is then pasted at that same offset, so a
  "bottom right" choice lands at the bottom right only on images the same size
  as that first entry.
- The code truncates with `int(...)` wherever a size, alpha value or
  percentage is computed. It has no click-to-ratio custom placement, and it
  does not validate parameters. The model follows the code.

## Model

| member | source | states |
|---|---|---|
| Geometry.WatermarkWidth | test.py:155 | the width is the floor of base width times scale over 100: `w*100 <= W*s < (w+1)*100` |
| Geometry.WatermarkHeight | test.py:156-157 | the height is the floor of width times original height over original width (aspect ratio kept up to truncation) |
| Geometry.ScaledSize | test.py:258-260 | both resized dimensions satisfy the floor characterisations above, for the base and watermark sizes |
| Geometry.Resolve | test.py:159-173 | an offset exists exactly for the four corners; a left choice has x = 10, a right choice leaves exactly 10 px between the watermark's right edge and the canvas edge; likewise top and bottom for y; Custom gives none |
| Geometry.CornerInsideIffRoom | test.py:159-170 | for every corner the watermark lies fully inside the canvas, in each direction, if and only if its size plus the margin fits |
| Geometry.NoClamping | test.py:159-167 | a right (bottom) placement is negative exactly when the watermark is wider (taller) than the canvas minus the margin |
| Geometry.MirrorSymmetry | test.py:159-167 | the right x equals base width minus watermark width minus the left x; the top and bottom y mirror likewise |
| Geometry.WidthWithinSliderRange | test.py:85 | for a scale in the slider's range 5..50 the watermark is at most half the base width and at least its width at 5 percent |
| Geometry.WidthMonotone | test.py:258 | a larger scale never gives a narrower watermark |
| Geometry.AspectPreserved | test.py:259-260 | a watermark kept at its original width keeps its original height |
| Geometry.BottomLeftScenario | test.py:162-164 | base 1000x500, watermark 200x100, 20 percent: size stays 200x100 and the bottom-left offset is (10, 390) |
| Opacity.Fade | test.py:216 | the new alpha is the floor of alpha times opacity over 100, never above the old alpha, and 0 at opacity 0 |
| Opacity.WithOpacity | test.py:213-217 | same length, red, green and blue unchanged, alpha never raised and equal to the floored product when opacity < 100; opacity 100 leaves the pixels as they were |
| Opacity.ApplyOpacity | test.py:263-266 | the array afterwards holds exactly `WithOpacity` of its previous contents |
| Opacity.FadeMonotone | test.py:265 | the faded alpha is non-decreasing in the opacity |
| Opacity.WithOpacityMonotone | test.py:263-266 | pixel by pixel, a lower opacity never gives a higher alpha after the pass |
| Opacity.ZeroOpacityClears | test.py:263-266 | at opacity 0 every pixel keeps its colour and gets alpha 0 |
| Opacity.HalfOpacityScenario | test.py:265 | at opacity 50 every alpha value is halved, truncated |
| Coords.DecimalValueSnoc | test.py:220 | appending a digit to a digit string multiplies its positional decimal value by ten and adds the digit |
| Coords.ParseDigits | test.py:220 | a value is produced exactly for a non-empty string of decimal digits, and it is the positional decimal value (sum of digit times 10 to its place) |
| Coords.IsIntLiteral | test.py:220-221 | a literal ends in a digit and has only digits after its first character, which is a digit or a sign followed by at least one digit |
| Coords.ParseInt | test.py:269-270 | a value is produced exactly for an optionally signed decimal literal, and it is the decimal value of its digits, negated after a minus sign |
| Coords.ReadScenarios | test.py:269-270 | "120" reads as 120, "007" as 7, "+7" as 7, "-45" as -45; "12a" and "-" are not numbers |
| Coords.ShowNat | test.py:176 | the text is a non-empty digit string with no leading zero except for 0 itself |
| Coords.ShowInt | test.py:177 | the text is non-empty and starts with a minus sign exactly for negative numbers |
| Coords.ParseShowNat | test.py:176-177 | reading back the digits written for a natural number gives that number |
| Coords.ParseShowInt | test.py:176-177 | `int(str(n)) == n` for every integer |
| Coords.ParseCoords | test.py:268-272 | both fields literals: the parsed pair; either field not a literal: (10, 10) regardless of the other |
| Coords.ShowThenParse | test.py:219-223 | coordinates written into the fields are read back as exactly the same pair |
| Coords.FallbackScenario | test.py:222-223 | ("120", "abc") and ("", "40") fall back to (10, 10); ("-5", "+7") reads as (-5, 7); the fallback is the top-left corner offset |
| Listing.IsImageName | test.py:199 | a kept name has a dot four or five characters from its end, and every name ending in ".png" in any case is kept |
| Listing.Lower | test.py:232 | ASCII upper-case letters are mapped to lower case, every other character kept, length unchanged |
| Listing.ImageFiles | test.py:232 | at most as long as the listing; a name is in the result iff it is in the listing and is an image name; each image name occurs as often as in the listing, others never |
| Listing.ImageFilesIsSubsequence | test.py:199 | the result is a subsequence of the listing, so relative order is kept |
| Listing.ImageFilesKeepsImages | test.py:232 | a listing of image names only is returned unchanged |
| Listing.ImageFilesIdempotent | test.py:232 | filtering twice equals filtering once |
| Listing.CaseInsensitive | test.py:232 | a name is an image name iff its lower-cased form is |
| Listing.NameScenarios | test.py:199 | "IMG_0001.JPG", "holiday.Jpeg", "logo.png" are kept; "notes.txt", "jpg", "photo.gif" are not |
| App.Progress | test.py:246 | the value is between 0 and 100 and is the floor of 100 times done over total |
| App.ProgressTrace | test.py:240-247 | one progress value per completed file |
| App.ProgressEvents | test.py:247 | one progress-bar event per value, carrying that value, in order |
| App.ProgressMonotone | test.py:246-247 | more completed files never show less progress |
| App.ProgressTraceShape | test.py:239-247 | over a batch the values shown are non-decreasing and the last is 100 |
| App.BatchOutputs | test.py:240-244 | one output per image, in order, each with the image's own name, the output folder and the shared offset |
| App.Compose | test.py:251-274 | the planned size satisfies the width and height floor characterisations, the offset is what the fields parse to, the opacity is the slider's |
| App.CornerFields | test.py:146-182 | Custom, or a base or watermark that failed to load, leaves the fields as they were; a corner writes the decimal text of the resolved offset for the resized watermark |
| App.CornerChoiceReachesComposite | test.py:175-177 | after a corner choice, composing on the same base image pastes the watermark at exactly that corner's offset for its resized size |
| App.WatermarkApp.constructor | test.py:43-128 | empty paths, scale 15, opacity 100, bottom-right choice, fields "10" and "10", progress 0, no files written, no events |
| App.WatermarkApp.SelectImageFolder | test.py:20-23 | the dialog's answer becomes the image folder |
| App.WatermarkApp.SelectWatermarkImage | test.py:25-29 | the dialog's answer, even an empty one, becomes the watermark path |
| App.WatermarkApp.SelectOutputFolder | test.py:31-33 | the dialog's answer becomes the output folder |
| App.WatermarkApp.MoveSizeSlider | test.py:35-37 | the scale becomes the slider value, which stays within 5..50 |
| App.WatermarkApp.MoveOpacitySlider | test.py:39-41 | the opacity becomes the slider value, which stays within 0..100 |
| App.WatermarkApp.ChoosePosition | test.py:108-110 | the choice is recorded; re-picking the entry already shown leaves the fields alone, a different entry makes them `CornerFields` of the choice and their old text |
| App.WatermarkApp.UpdateXYFields | test.py:146-182 | the fields become `CornerFields` of the current choice and their old text; nothing else changes |
| App.WatermarkApp.EditXField | test.py:185-188 | the x field takes the typed text and the choice becomes Custom |
| App.WatermarkApp.EditYField | test.py:185-188 | the y field takes the typed text and the choice becomes Custom |
| App.WatermarkApp.Preview | test.py:197-228 | nothing happens iff no folder or no watermark is chosen; the preview clears iff there is no image file; otherwise it shows the first image file with the fields' offset, the slider opacity and the resized width and height of `ScaledSize` |
| App.WatermarkApp.StartWatermarking | test.py:230-249 | missing path: nothing changes; no image file: only a "no images" message, no writes, progress untouched; otherwise every image file written in order under its own name, and the user sees, in order, progress 0, floor(100 i / n) after file i, the completion message while the bar shows 100, then 0 |
| App.WatermarkApp.RunBatch | test.py:239-249 | for a non-empty image list: the outputs and the ordered event history described above |

## Left out

- Floating point: the code computes `value / 100`, `width / aspect_ratio` and `i / total` as floats and truncates. The model uses exact floor division. The two can differ by one (e.g. `int(100 * 0.29)` is 28, not 29). The preview multiplies before dividing and the writer divides first, and the model gives both the exact result.
- Resampling (`resize` with LANCZOS), alpha blending (`paste`), conversion to RGB and JPEG encoding: these are image-library calls. `Compose` stops at the size, fade and offset the paste receives. `ApplyOpacity` works on a pixel array whose contents stand for the resized watermark.
- A resize to zero width or zero height is the image library's behaviour and is not modelled. Zero width happens for a base narrower than 20 pixels at 5 percent. Zero height happens for a very flat watermark: 1000 x 1 on a 100 px base at 5 percent gives 5 x 0.
- Image decoding and the file system: directory listings and image sizes are parameters. A listing's order is whatever the caller supplies. `UpdateXYFields` takes None for an image that failed to load. The code catches only a missing file and an empty folder. Other failures escape the handler and end the program: a first directory entry that is not an image, or one that is a sub-folder. The model maps these to None as well.
- App.WatermarkApp.StartWatermarking: assumes every image decodes and every write succeeds. In the code, an exception from one file ends the run with the progress bar at its partial value and no completion message.
- App.WatermarkApp.Preview: takes the first image file's size as an input rather than decoding it. A decoding failure is not modelled.
- Coords.ParseInt: accepts only an optional sign and ASCII digits. Python's `int` also strips surrounding whitespace, allows underscores between digits and accepts other Unicode decimal digits.
- Listing.Lower: lower-cases ASCII letters only. Python's `str.lower` also folds non-ASCII letters.
- The Qt signal cascade: rewriting the fields fires the text-changed handler, which switches the choice to Custom. So after a corner choice the combo box in fact shows Custom. The model keeps the handlers separate: `ChoosePosition` records the corner, and `EditXField` and `EditYField` model the text-changed rule.
- Widget construction, labels, the preview pixmap and its scaling, the conversion to a Qt image, and message boxes (recorded only as `Notice` values).
- The slider's own clamping of values: `MoveSizeSlider` and `MoveOpacitySlider` require a value already in range, as the slider delivers.
- `check_custom_position` (test.py:190-195): it is never connected to a signal and only sets an attribute to None.
