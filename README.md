# SmartCrop front end and upload check, modelled in Dafny

SmartCrop is a small web application. The browser lets a user pick a crop
photo and shows a preview. It then posts the photo to a Flask endpoint,
`/analyze`, and draws the returned detection on a second canvas: a
bounding box and a label with a backdrop.

This project models the parts of that flow that decide something:

- **AspectFit** (`aspect_fit.dfy`): the aspect-ratio fit that both canvases
  apply against the 400 x 300 bound. It covers the nested branches chosen by
  the dominant axis, and the scale factors `width / natural width` and
  `height / natural height`. `FitDimensions` mirrors the source's
  reassignment of its two locals. `Fit`, a uniform factor `FitScale` applied
  to both axes, is the reference it is proved against.
- **Overlay** (`overlay.dfy`): what the preview and result canvases draw. The
  canvas calls are recorded in order as drawing operations. The detection box
  is mapped from natural pixels to the canvas. The label backdrop sits above
  the box and the text is inset in it. `measureText(label).width` is an input.
- **LabelFormat** (`label_format.dfy`): `formatLabel` as the source writes it,
  split on `_`, capitalise each piece, join with spaces. It is proved equal to
  a character-by-character reference definition.
- **Feedback** (`feedback.dfy`): which message the page shows on each way a
  submission can settle, and when it shows the result instead. The
  asynchronous request is represented by how it settled.
- **UploadValidation** (`upload_validation.dfy`): the ladder of early returns
  in the Flask `analyze` handler, as a classifier of the `file` part's name.
- **Text**, **Options**: ASCII case mapping, suffix and count helpers, and an
  `Option` type.

Arithmetic is over `real`, so it is exact. Strings are `seq<char>`. Case
mapping covers ASCII only.

Two behaviours of the code worth stating up front:

- Scale factors need positive natural sizes. The fit itself divides only
  when the dominant axis exceeds a positive bound.
- A failure status throws the body's `error` or "Server error occurred". A
  success status whose body is falsy or carries an `error` shows the body's
  `error`, or "Invalid response from server" when there is none; a `null`
  body is the exception recorded under "## Findings". Both statuses are
  modelled.

## Model

| member | source | states |
|---|---|---|
| AspectFit.FitScale | static/js/main.js:64-74 | the factor is in (0, 1] and is below 1 exactly when the dominant axis (width if strictly wider, else height) exceeds its bound: the fit never enlarges |
| AspectFit.FitDimensions | static/js/main.js:61-74 | the in-place reassignment of `width`/`height` in the nested branches yields exactly the uniform-factor reference size `Fit` |
| AspectFit.ComputeGeometry | static/js/main.js:192-193 | `scaleX == scaleY ==` the fit's factor, and the drawn size is the fitted size: scaling is always uniform |
| AspectFit.LandscapeOverflowFit | static/js/main.js:64-68 | wider than tall and wider than `maxWidth`: width becomes exactly `maxWidth`, height `height * maxWidth / width` |
| AspectFit.PortraitOverflowFit | static/js/main.js:69-73 | not wider than tall (square included) and taller than `maxHeight`: height becomes exactly `maxHeight`, width `width * maxHeight / height` |
| AspectFit.FitIdentityIff | static/js/main.js:64-74 | the fit returns the natural size unchanged if and only if the dominant axis is within its bound, and then both scale factors are 1 |
| AspectFit.FitPreservesAspect | static/js/main.js:66-72 | the fitted width/height ratio equals the natural ratio (also in cross-multiplied form) |
| AspectFit.FitBoundsDominantAxis | static/js/main.js:64-74 | after the fit the dominant axis is within its bound and neither axis has grown |
| AspectFit.FitKeepsOrientation | static/js/main.js:64-74 | the fitted size is landscape exactly when the natural size is |
| AspectFit.MinorAxisNotClamped | static/js/main.js:69-74 | the minor axis is not clamped: 390 x 350 stays 390 x 350 although 350 exceeds the 300 bound |
| AspectFit.GeometryExamples | static/js/main.js:166-193 | 1600 x 800 gives 400 x 200 at scale 0.25; 800 x 1600 gives 150 x 300 at scale 0.1875 |
| Overlay.PreviewFrame | static/js/main.js:59-82 | the preview canvas takes the fitted size, keeps the natural aspect ratio, equals the natural size when nothing overflows, and is cleared then covered by the image |
| Overlay.ResultFrame | static/js/main.js:160-161 | the result canvas is drawn if and only if an image has been decoded |
| Overlay.ResultFrameContents | static/js/main.js:184-228 | result canvas at the fitted size; clear, image over the whole canvas, box stroked 3 px green and filled translucent green at the detection times the fit's factor, backdrop at (x, y-20) of size (textWidth+8, 20), formatted label at (x+4, y-6) in bold white |
| Overlay.ScaledBoxCorners | static/js/main.js:196-199 | `ScaledBox`, the box transform, is linear in the detection: its top-left corner is (xmin, ymin) scaled and its far corner is (xmax, ymax) scaled |
| Overlay.InvertedBoxKeepsSign | static/js/main.js:198-199 | an inverted detection is not reordered; the box's extent is negative exactly when xmax < xmin (ymax < ymin) |
| Overlay.BoxInsideCanvas | static/js/main.js:192-199 | a detection inside the natural image is drawn inside the result canvas |
| Overlay.Backdrop | static/js/main.js:219-224 | the backdrop starts at the box's left edge, its bottom edge is the box's top edge, it is 20 high and as wide as the text plus 4 of padding on each side |
| Overlay.TextOrigin | static/js/main.js:228 | the text is drawn 4 to the right of the box's left edge, at a height inside the 20-high band above the box |
| Overlay.LabelPlacement | static/js/main.js:216-228 | backdrop rests on the box's top edge at its left edge, text is inset by the padding and lies inside the backdrop, and the backdrop is not clamped (negative y when the box is within 20 of the top) |
| Overlay.CanvasesAgree | static/js/main.js:59-60 | the preview and result canvases get the same size for the same image |
| Overlay.ScaledBoxExample | static/js/main.js:196-207 | box (100, 50)-(300, 250) at scale 0.25 is drawn at (25, 12.5) with size 50 x 50 |
| LabelFormat.FormatLabel | static/js/main.js:236-244 | missing or empty label gives "Unknown"; otherwise the result is the reference title-casing of the label |
| LabelFormat.PipelineIsTitleCase | static/js/main.js:240-243 | split on `_`, capitalise, join with spaces equals: `_` becomes a space, a character starting a piece is upper-cased, every other character is kept |
| LabelFormat.Split | static/js/main.js:241 | `split('_')` gives one piece more than there are underscores, and no piece holds an underscore |
| LabelFormat.Capitalize | static/js/main.js:242 | same length; a non-empty piece has its first character upper-cased and the rest unchanged; an empty piece stays empty |
| LabelFormat.CapitalizeAll | static/js/main.js:242 | the `map` step: same number of pieces, each one capitalised |
| LabelFormat.SplitJoinRoundTrip | static/js/main.js:241-243 | `Join` undoes `Split`: joining the pieces with `_` gives back the label; pieces hold no `_`; there is one piece more than underscores |
| LabelFormat.FormatLabelSpaces | static/js/main.js:240-243 | the output has one space per space and per underscore of the label, and no underscore |
| LabelFormat.FormatLabelIdempotent | static/js/main.js:236-244 | formatting a formatted label changes nothing |
| LabelFormat.FormatLabelMissing | static/js/main.js:237 | `null`/`undefined` and `""` give "Unknown" |
| LabelFormat.TrafficLightExample | static/js/main.js:240-243 | "traffic_light" gives "Traffic Light" |
| LabelFormat.StopSignExample | static/js/main.js:242 | "stopSign" gives "StopSign": the rest of a piece keeps its case |
| LabelFormat.CatExample | static/js/main.js:242 | "cat" gives "Cat" |
| LabelFormat.MockLabelExample | utils.py:45 | the mock label "wheat_healthy" is shown as "Wheat Healthy" |
| Text.Upper | static/js/main.js:242 | ASCII `toUpperCase`: lower-case letters move to upper case, every other character is kept |
| Text.Lower | app.py:47 | ASCII `lower()` of one character: upper-case letters move to lower case, every other character is kept |
| Text.EndsWith | app.py:47 | `endswith` for one suffix: the suffix is no longer than the string and matches its last characters position by position |
| Text.LowerAll | app.py:47 | ASCII `lower()`: same length, each character lower-cased |
| Feedback.OrElse | static/js/main.js:117 | JavaScript's logical-or fallback: a present non-empty string wins, otherwise the fallback; never empty when the fallback is not |
| Feedback.ErrorOf | static/js/main.js:117 | the corrected reading of `data.error`: an object's `error` field; a `null` or other bare body gives no truthy error |
| Feedback.Caught | static/js/main.js:125-127 | the `catch` handler shows the thrown message, or "An error occurred during analysis" when it is empty |
| Feedback.ReplyShown | static/js/main.js:114-142 | corrected half: `data.error` is read safely, also on a `null` body. A result is shown exactly for a success status with a body object without a truthy `error`; otherwise the body's `error`, or the status's fallback |
| Feedback.Settle | static/js/main.js:110-130 | a network failure or an unparsable body shows what the `catch` handler shows for that error's message; a parsed reply shows `ReplyShown`; every error shown has a non-empty message; a result is shown exactly for a success reply whose body object carries no truthy `error` |
| Feedback.SettleAsWritten | static/js/main.js:114-141 | as the code reads `data.error`: equal to `Settle` except for a `null` body, where the runtime's TypeError text is shown |
| Feedback.Submit | static/js/main.js:28-36 | a request is sent exactly when a file is selected; without one "Please select an image first." is shown |
| Feedback.SubmitAsWritten | static/js/main.js:28-36 | the submission as the code behaves: a request exactly when a file is selected; the shown outcome is `SettleAsWritten`, so a `null` body shows the runtime's TypeError text |
| Feedback.FailureStatusShowsError | static/js/main.js:115-118 | a failure status never shows a result; it shows the body's `error` or "Server error occurred" |
| Feedback.UnsupportedFormatExample | static/js/main.js:115-127 | `{error: "Unsupported format"}` with a failure status shows "Unsupported format"; no file selected shows the selection message without a request |
| Feedback.NullBodyAsWritten | static/js/main.js:139-140 | as written, a success reply with body `null` does not show "Invalid response from server" |
| Feedback.NullBodyShowsFallback | static/js/main.js:139-140 | with a safe read, a `null` body is handled like any falsy body and shows the status's fallback |
| UploadValidation.Validate | app.py:35-49 | no `file` part gives "No file part"; an empty name (after that) "No selected file"; a non-empty name without an image extension "Invalid file type. Please upload an image."; all with 400; accepted exactly when the name passes all three |
| UploadValidation.EndsWithAnyIff | app.py:47 | `EndsWithAny`, `endswith` on a tuple, holds exactly when some suffix of the tuple ends the string |
| UploadValidation.ImageExtensionIff | app.py:47 | `HasImageExtension`: an image name is one whose lower-cased form ends in .png, .jpg, .jpeg or .gif |
| UploadValidation.CaseInsensitive | app.py:47 | names that agree after lower-casing get the same verdict |
| UploadValidation.LowerCasedSameVerdict | app.py:47 | lower-casing a name never changes its verdict |
| UploadValidation.AcceptedNameLength | app.py:47-49 | an accepted name has at least four characters |
| UploadValidation.ValidateExamples | app.py:35-49 | "A.PNG", "a.png", "photo.JPEG", ".gif" are accepted; "notes.txt", "png", "leaf.png.zip" are rejected as invalid type |

## Left out

- DOM lookups, event listeners and `classList` toggling of the loading, result, no-result and error panels (static/js/main.js:1-36, 99-103, 128-130, 144-146, 250-264): user-interface glue. Only the shown message and the "request sent" decision are modelled.
- `FileReader` and `Image` decoding and the `fetch` promise chain (static/js/main.js:46-91, 110-130): the model works on the decoded natural size and on how the request settled, not on the asynchronous steps. A decode failure is not handled by the source and is not modelled. Neither is the stale-response race between overlapping requests.
- The module-level `originalImage` reference (static/js/main.js:17, 53, 161): the result canvas takes the decoded image's size as an `Option`, `None` when no image has been decoded yet.
- The canvas API: `drawImage`, `strokeRect`, `fillRect`, `fillText` are recorded, not rendered. `measureText` is an input. The canvas's integer truncation of `width`/`height` and IEEE-754 rounding are replaced by exact `real` arithmetic.
- AspectFit.ComputeGeometry: requires a positive natural size. The source divides by it, and a zero-size image would give NaN factors, which the model does not represent.
- The score text `(score * 100).toFixed(2)` (static/js/main.js:150): float-to-string formatting.
- Text.Upper: ASCII only. Full Unicode `toUpperCase`, which can change a string's length, is not modelled.
- Text.LowerAll: ASCII only, unlike Python's full Unicode `str.lower`.
- Feedback: bodies that are truthy non-objects, and `error` fields that are not strings, are not represented. A body object without `error` carries a well-formed detection.
- In app.py: PIL decoding, `preprocess_image`, the mock prediction, the 500 exception handlers (app.py:52-74), and Flask routing, templates and logging (app.py:22-25, 77-86). These are image I/O through library wrappers and framework glue. utils.py and main.py are not part of this model, apart from the mock label used in one example.

## Findings

| source | as written | input that shows it | evidently intended | confidence | as-written member | corrected member |
|---|---|---|---|---|---|---|
| static/js/main.js:139-140 | the guard accepts a falsy `data`, but the fallback choice then reads `data.error`, which throws a TypeError when `data` is `null`; the `catch` handler then shows the runtime's TypeError text. Line 117 reads `data.error` of a failure body the same way. | a success reply whose JSON body is `null` | a `null` body shows "Invalid response from server" (on a failure status, "Server error occurred"), as for any other falsy body | not executed; high | Feedback.SettleAsWritten, Feedback.SubmitAsWritten, Feedback.NullBodyAsWritten | Feedback.Settle, Feedback.ReplyShown, Feedback.Submit, Feedback.NullBodyShowsFallback |
