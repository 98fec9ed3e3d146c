# sealmark-web watermark core, modelled in Dafny

This project models the core of sealmark-web, a browser tool that stamps a
text watermark on photos, one at a time or in batches. It covers four parts.

- **The watermark renderer** (`src/lib/canvas/watermark.ts`):
  - the scale factor that grows the watermark on large images;
  - substitution of the `{YYYY}`, `{MM}`, … date/time placeholders;
  - selection of the non-blank lines;
  - the tiled grid: steps, row and column counts, start point, row-major cells;
  - the single centred block;
  - the vertical placement of the lines inside a block, each stroked (when enabled) before it is filled;
  - `applyWatermark`, which draws the oriented photo and then the watermark on a fresh canvas;
  - the size rule of `resizeCanvas`.
- **EXIF orientation** (`src/lib/canvas/exif.ts`):
  - the width/height swap for codes 5–8;
  - the eight canvas transforms and where they send the drawn rectangle;
  - which orientation code is chosen;
  - the size of `createOrientedCanvas`.
- **Export names** (`src/lib/zip.ts`): `generateFilename` splits off the extension and substitutes `{basename}`, `{date}`, `{time}` and `{index}` in turn. Also modelled is the zero case of `formatFileSize`, and next to it the save name of the single-image editor (`src/components/WatermarkEditor.tsx`).
- **The batch list** (`src/components/BatchWatermark.tsx`): the record list behind the batch screen. Adding a file, finishing its load, removing, clearing, the sequential processing run with its export list, and the status counts.

The modules are as follows.

- `Wrappers` holds `Option` and `Result`.
- `JsRuntime` gives the JavaScript string built-ins the core relies on. These are `trim`, `split`, global `replace` of a literal, `padStart`, `String(n)` and `lastIndexOf`, plus the calendar fields of a `Date`.
- `Canvas` is the subset of `CanvasRenderingContext2D` the core uses. Its class `Context` has:
  - a drawing state (transform list, font, colours, alpha, line width, alignment);
  - a `save`/`restore` stack;
  - a log of the `fillText`, `strokeText` and `drawImage` calls, each with the state it was issued in.
- `Exif`, `Watermark`, `Zip`, `Editor` and `Batch` follow the source files.
  - The drawing functions are methods on a `Context`. Each is proved to append exactly the calls of a specification function to the log, and to leave the state as the source does.
  - The tiled grid loop and the block loop are `for` loops with invariants.
  - The batch screen is the class `Batch.BatchWatermark`. Its `images` field is reassigned by every handler, and the processing run is a loop over a snapshot of the list.
  - `replaceDateTimePlaceholders` is a loop over the placeholder table.

Inputs the model receives as parameters:
- the clock reading (`DateTime`);
- the canvas diagonal `D`, with `D ≥ 0` and `D·D = W·W + H·H`;
- the text measurement function of the context;
- whether a 2D context could be obtained;
- the EXIF reader's outcome;
- the loaded image;
- a fresh record id;
- for a batch run, whether rendering and encoding succeeded for each record, and the clock reading for each name.

Orientation codes 5–8 are modelled as the source behaves. `applyWatermark` sizes the canvas W×H with the already swapped sides and then draws the image into [0,W]×[0,H] through the code's transform. The transform sends that rectangle onto [0,H]×[0,W] (`Exif.OrientationMapsCorners`), which is the canvas only when W = H (`Exif.SwappedDrawingFitsOnlySquare`).

## Model

| member | source | states |
|---|---|---|
| Watermark.ApplyWatermark | src/lib/canvas/watermark.ts:24-57 | With no 2D context the result is the error "Failed to get 2D context". Otherwise a fresh canvas of the oriented size is returned, with an empty save stack. Its log is one `drawImage(0, 0, W, H)` under the orientation transform, followed by exactly the `drawWatermark` calls made in the untransformed state; its final state is the text state with alpha reset to 1, or the initial state when nothing is drawn. |
| Watermark.WatermarkedCanvas | src/lib/canvas/watermark.ts:34-55 | A fresh canvas of the given size with an empty save stack. Its log is the full-size `drawImage` under the orientation transform, then `WatermarkCalls` from the initial state. Its state is the scaled text state with alpha 1 when something is drawn, the initial state otherwise. |
| Watermark.DrawImageAndWatermark | src/lib/canvas/watermark.ts:44-54 | The orientation transform only affects the `drawImage` call (it sits inside save/restore); the watermark calls that follow use the caller's state. |
| Watermark.DrawOrientedImage | src/lib/canvas/watermark.ts:45-51 | Appends one full-size `drawImage` whose transform is the current one followed by the orientation's; state and stack are restored. |
| Watermark.DrawWatermark | src/lib/canvas/watermark.ts:62-129 | Appends exactly `WatermarkCalls`. When nothing is drawn the state is unchanged. Otherwise the state is the scaled text state with `globalAlpha` reset to 1. The save stack is left as found. |
| Watermark.WatermarkCallsDrawLines | src/lib/canvas/watermark.ts:81-125 | Something is drawn iff the text is not blank after trimming. Every call draws one of the selected lines, at the scaled font size with centred alignment, in the rotated text state, and strokes only when the scaled stroke width is positive. |
| Watermark.ModeCallsDrawLines | src/lib/canvas/watermark.ts:112-125 | Both the tiled and the centred mode issue at least one call, and every call draws one of the lines. |
| Watermark.DrawLines | src/lib/canvas/watermark.ts:101-128 | Sets the text style, draws in the chosen mode, then resets `globalAlpha` to 1; the log grows by exactly `LinesCalls`. |
| Watermark.SetTextStyle | src/lib/canvas/watermark.ts:101-110 | The new state has the scaled font, fill colour, alpha `opacity/100` (ignored outside [0,1]), centre/middle alignment, and the stroke colour and width only when the scaled stroke width is positive; nothing is drawn. |
| Watermark.TextLines | src/lib/canvas/watermark.ts:95-96 | The lines are the non-blank `'\n'` pieces of the substituted text. |
| Watermark.ScaleFactor | src/lib/canvas/watermark.ts:85-86 | The factor is at least 1. It is exactly 1 iff the shorter side is at most 1280. Above 1 it is that side divided by 1280. |
| Watermark.ScaleFactorMonotone | src/lib/canvas/watermark.ts:85-92 | A larger shorter side never gives a smaller factor, and a scaled size is never smaller than the raw size. |
| Watermark.ScaledSizesUsable | src/lib/canvas/watermark.ts:89-91 | Scaling keeps tiled spacing positive and line height non-negative, never below the raw values. |
| Watermark.LinesExistIffTextNotBlank | src/lib/canvas/watermark.ts:81-98 | After substitution some line survives iff the original text is not blank after trimming (placeholder values are never blank). |
| Watermark.LinesEmptyIffBlank | src/lib/canvas/watermark.ts:95-98 | The line list of a text is empty iff the text is whitespace-only. |
| Watermark.KeepNonBlankSelects | src/lib/canvas/watermark.ts:96 | A line is kept iff it is one of the pieces and is not whitespace-only. |
| Watermark.KeepNonBlankAppend | src/lib/canvas/watermark.ts:96 | Filtering distributes over concatenation, so the kept lines stay in their original order, untrimmed. |
| Watermark.ReplaceDateTimePlaceholders | src/lib/canvas/watermark.ts:245-266 | The loop over the nine entries yields `Substituted(text, now)`, each entry replacing every occurrence of its key in turn. |
| Watermark.SubstitutionWithoutBraceIsIdentity | src/lib/canvas/watermark.ts:260-263 | A text with no `{` is returned unchanged. |
| Watermark.AllFieldsTemplate | src/lib/canvas/watermark.ts:248-263 | The six single-field keys joined as `{YYYY}-{MM}-{DD} {HH}:{mm}:{ss}` become the six field values joined the same way. |
| Watermark.AllFieldsExample | src/lib/canvas/watermark.ts:248-263 | At 2024-03-05 09:07:03, `"{YYYY}-{MM}-{DD} {HH}:{mm}:{ss}"` becomes `"2024-03-05 09:07:03"`. |
| Watermark.ExampleFieldValues | src/lib/canvas/watermark.ts:249-254 | The six field values at 2024-03-05 09:07:03, month being 0-based in the clock reading. |
| Watermark.KeysNotNested | src/lib/canvas/watermark.ts:248-258 | No placeholder key occurs anywhere inside another key. |
| Watermark.BracketedNotNested | src/lib/canvas/watermark.ts:248-258 | A key that has `{` only first and `}` only last occurs inside another such key only as all of it. |
| Watermark.ReplacementValuesNotBlank | src/lib/canvas/watermark.ts:248-258 | Every replacement value starts with a digit, so none is blank. |
| Watermark.ReplaceEachKeepsNonBlank | src/lib/canvas/watermark.ts:260-263 | Replacing keys by non-blank values keeps a non-blank text non-blank. |
| JsRuntime.Pad2Digits | src/lib/canvas/watermark.ts:250-254 | `String(n).padStart(2, '0')` of a number below 100 is exactly its two decimal digits. |
| JsRuntime.ParseNatToString | src/lib/canvas/watermark.ts:249 | `String(n)` reads back as `n`. |
| JsRuntime.PadStart | src/lib/zip.ts:76 | The result is the string itself when already wide enough, and otherwise the string preceded by fill characters up to the width. |
| JsRuntime.TrimEmptyIffBlank | src/lib/canvas/watermark.ts:81 | `trim()` gives the empty string iff the text is whitespace-only. |
| JsRuntime.JoinSplit | src/lib/canvas/watermark.ts:96 | Splitting at `'\n'` and joining back gives the text. |
| JsRuntime.ReplaceAllBySegments | src/lib/canvas/watermark.ts:262 | A text cut into whole occurrences of the pattern and pieces that cannot start one is replaced piece by piece. |
| Watermark.DrawTextBlock | src/lib/canvas/watermark.ts:217-239 | Appends exactly `BlockCalls`, one run of calls per line in order; state and stack unchanged. |
| Watermark.BlockLayout | src/lib/canvas/watermark.ts:225-238 | Line `i` of `n` takes calls `i·k … i·k+k−1`, with `k` 2 when stroking and 1 otherwise. Its last call fills the line at `y − n·lh/2 + lh/2 + i·lh`. Its first call strokes the line there iff the stroke width is positive. |
| Watermark.BlockCentred | src/lib/canvas/watermark.ts:225-229 | Lines `i` and `n−1−i` are symmetric about `y`, and consecutive lines are one line height apart. |
| Watermark.BlockDrawsLines | src/lib/canvas/watermark.ts:228-238 | Every call of a block draws one of its lines, stroking only with a positive stroke width. |
| Watermark.DrawCenteredWatermark | src/lib/canvas/watermark.ts:190-212 | Appends exactly one block at (0, 0) in the state translated to the canvas centre and rotated by the angle; state and stack are restored. |
| Watermark.DrawTiledWatermark | src/lib/canvas/watermark.ts:134-185 | Appends exactly `TiledCalls` for the grid planned from the widest line, the spacing, the line height and the diagonal, in the translated and rotated state; state and stack restored. |
| Watermark.DrawGrid | src/lib/canvas/watermark.ts:175-182 | The nested loops append the blocks of every row in row order. |
| Watermark.DrawGridRow | src/lib/canvas/watermark.ts:176-181 | One row appends its blocks in column order at `startY + row·gy`. |
| Watermark.PlanGrid | src/lib/canvas/watermark.ts:149-162 | The horizontal step `maxWidth + spacing` and the vertical step `lines·lineHeight + spacing` are at least the spacing. |
| Watermark.PlanGridSpans | src/lib/canvas/watermark.ts:149-162 | With `numCols = ceil(D/gx)+2`, the columns span at least `D + 2·gx` and less than `D + 3·gx`. The same holds for the rows with `gy`. |
| Watermark.RepetitionsSpan | src/lib/canvas/watermark.ts:161-162 | `ceil(D/step)+2` steps span between `D + 2·step` and `D + 3·step`. |
| Watermark.GridCentred | src/lib/canvas/watermark.ts:171-178 | The first and last block centres add up to `−step` on each axis. So the grid is centred on (−gx/2, −gy/2), half a step up and to the left of the origin, not on the origin: the start is `−numCols·gx/2` and every block is drawn centred on its cell origin. |
| Watermark.AxisCovered | src/lib/canvas/watermark.ts:171-178 | Every coordinate within `D/2` of the centre lies within half a step of some cell's origin (not the first one). |
| Watermark.TiledGridCoversCanvas | src/lib/canvas/watermark.ts:156-182 | For any rotation, every point of the canvas, taken into the rotated frame, falls in some cell of the grid. |
| Watermark.CanvasInSquare | src/lib/canvas/watermark.ts:157-168 | A canvas point taken into the frame centred and rotated as the source does lies within `D/2` on both axes. |
| Watermark.TiledSize | src/lib/canvas/watermark.ts:175-182 | The tiled pattern holds `numRows·numCols` blocks' worth of calls. |
| Watermark.TiledCellAt | src/lib/canvas/watermark.ts:175-182 | The block at position `row·numCols + col` is drawn at `(−numCols·gx/2 + col·gx, −numRows·gy/2 + row·gy)`: row-major enumeration. |
| Watermark.GridDrawsLines | src/lib/canvas/watermark.ts:175-182 | Every call of the pattern draws one of the lines. |
| Watermark.ResizedSize | src/lib/canvas/watermark.ts:321-332 | Unchanged when both sides are within the maximum. Otherwise the longer side (the height on a tie) becomes the maximum. Both sides stay within the maximum and the aspect ratio is kept. |
| Watermark.ScaledShorter | src/lib/canvas/watermark.ts:324-331 | The shorter side scaled by `max / longer` stays between 0 and the maximum and keeps its ratio to the longer side. |
| Watermark.ResizeIdempotent | src/lib/canvas/watermark.ts:321-332 | Resizing a resized size changes nothing. |
| Watermark.ResizedCanvas | src/lib/canvas/watermark.ts:321-337 | The pixel sides are within the maximum, and unchanged when the source already fits. |
| Exif.GetOrientedDimensions | src/lib/canvas/exif.ts:86-96 | The result is a rearrangement of the two sides and keeps the area. |
| Exif.OrientedDimensionsSwapIff | src/lib/canvas/exif.ts:91-95 | For unequal sides, the sides are swapped iff the code is 5 to 8. |
| Exif.OrientedDimensionsInvolution | src/lib/canvas/exif.ts:86-96 | Applying the rule twice gives back the original size. |
| Exif.OrientationMatrix | src/lib/canvas/exif.ts:107-139 | A transform is applied exactly for codes 2 to 8. Code 1 and every value outside 1–8 apply none. |
| Exif.OrientationOps | src/lib/canvas/exif.ts:107-139 | `applyOrientationTransform` adds at most one transform, and adds one exactly for codes 2 to 8. |
| Exif.ApplyOrientationTransform | src/lib/canvas/exif.ts:101-140 | Composes the code's transform onto the current one; nothing else changes and nothing is drawn. |
| Exif.OrientationIsSignedPermutation | src/lib/canvas/exif.ts:10-17 | The linear part of every code's matrix is a signed permutation. Its determinant is −1 exactly for the mirrored codes 2, 4, 5 and 7. |
| Exif.OrientationMapsCorners | src/lib/canvas/exif.ts:107-139 | The corners of [0,W]×[0,H] go to the corners of [0,W]×[0,H] for codes 1–4 (and others), and of [0,H]×[0,W] for codes 5–8. |
| Exif.OrientationMapsInto | src/lib/canvas/exif.ts:107-139 | Every point of the drawn rectangle lands in the target rectangle, and an explicit inverse recovers it. |
| Exif.OrientationMapsOnto | src/lib/canvas/exif.ts:107-139 | Every point of the target rectangle is the image of a point of the drawn rectangle. |
| Exif.SwappedDrawingFitsOnlySquare | src/lib/canvas/exif.ts:123-137 | For codes 5–8 the drawn rectangle lands on the W×H canvas iff W = H. |
| Exif.QuarterTurnOverflowsPortraitCanvas | src/lib/canvas/exif.ts:127-129 | On a 3000×4000 canvas, code 6 sends the origin to (4000, 0), outside the canvas. |
| Exif.GetExifOrientation | src/lib/canvas/exif.ts:31-40 | The code is 1 iff reading failed, or the tag is missing, 0 or 1. Any other tag value is passed through unchecked. |
| Exif.LoadImageWithOrientation | src/lib/canvas/exif.ts:45-69 | Fails iff the image fails to load. Without `applyRotation` the code is forced to 1 and the size is the natural size. With it, the code is the EXIF one. The size is always the oriented size under the chosen code. |
| Exif.ScaledPixels | src/lib/canvas/exif.ts:157-158 | Assigning `side × scale` to a canvas side keeps the whole part of the product. |
| Exif.CreateOrientedCanvas | src/lib/canvas/exif.ts:145-177 | Without a context, the result is the error "Failed to get canvas 2D context". Otherwise the canvas is the oriented size times the scale. The scale is applied (when not 1) before the orientation transform, and the image is drawn once at the oriented size. |
| Zip.SplitName | src/lib/zip.ts:62-65 | With no dot the basename is the whole name and the extension is ".png". Otherwise basename plus extension is the name, and the extension starts at the last dot. |
| Zip.SplitNameOfJoined | src/lib/zip.ts:62-65 | A basename followed by a single-dot extension splits back into those two parts. |
| Zip.GenerateFilename | src/lib/zip.ts:55-79 | Whatever the placeholders expand to, the generated name ends with the extension split off the original name. A template without `{` is used verbatim, followed by that extension. |
| Zip.FillTemplate | src/lib/zip.ts:72-76 | A template without `{` is returned unchanged by the four replacements; `Zip.BatchFilename`, `Zip.BasenamePlaceholdersExpand` and `Zip.BasenamePlaceholderExample` state what they do to templates with placeholders. |
| Zip.DateStr | src/lib/zip.ts:68 | The date string is all digits, at least four longer than the year, and starts with the year; `Zip.DateStrValue` gives its exact length and value. |
| Zip.TimeStr | src/lib/zip.ts:69 | The time string is all digits and at least six long; `Zip.TimeStrValue` gives its exact length and value. |
| Zip.BatchFilename | src/lib/zip.ts:72-78 | With the batch template `{basename}_watermarked_{date}` and a basename without `{`, the name is basename, `_watermarked_`, the date string, then the extension. `Zip.BatchBasenamePlaceholder` covers a basename holding a placeholder. |
| Zip.BatchBasenamePlaceholder | src/lib/zip.ts:72-78 | With the batch template, a basename `p + key + s` (key one of `{date}`, `{time}`, `{index}`; no `{` in `p` or `s`) gives `p`, the key's value, `s`, `_watermarked_`, the date string, then the extension. |
| Zip.BasenamePlaceholdersExpand | src/lib/zip.ts:72-76 | Replacement is sequential: with the template `{basename}`, a basename `p + key + s` (key one of `{date}`, `{time}`, `{index}`; no `{` in `p` or `s`) gives `p`, the key's value (date string, time string or index text), `s`, then the extension. |
| Zip.LateSteps | src/lib/zip.ts:74-76 | The `{date}`, `{time}` and `{index}` replacements, in that order, turn each of up to two late keys into its value and copy the brace-free text between them. |
| Zip.KeysApart | src/lib/zip.ts:74-76 | Two different late keys differ, and replacing one leaves the other intact. |
| Zip.BasenamePlaceholderExample | src/lib/zip.ts:72-76 | `generateFilename("{index}.jpg", "{basename}", 4)` is `"005.jpg"`. |
| Zip.DateStrValue | src/lib/zip.ts:68 | The date string is all digits, four longer than the year. It reads as `year·10000 + month·100 + day`. |
| Zip.TimeStrValue | src/lib/zip.ts:69 | The time string is six digits reading as `hours·10000 + minutes·100 + seconds`. |
| Zip.IndexStr | src/lib/zip.ts:76 | The index text is all digits and at least three long. |
| Zip.IndexStrValue | src/lib/zip.ts:76 | It reads as `index + 1`, or 1 when the index is absent, and is exactly three digits below 1000. |
| Zip.IndexStrNeverTruncates | src/lib/zip.ts:76 | Index 999 gives "1000": padding never truncates. |
| Zip.IndexStrFirst | src/lib/zip.ts:76 | Index 0 and an absent index both give "001". |
| Zip.FormatFileSize | src/lib/zip.ts:84-85 | A size of 0 bytes is written "0 B". |
| Editor.SaveName | src/components/WatermarkEditor.tsx:96-97 | The save name is the original name without its final extension, followed by `_watermarked.png`. |
| Editor.StripExtension | src/components/WatermarkEditor.tsx:96 | The result is a prefix of the name. The name is unchanged, or the removed tail is a final extension: a dot followed by at least one character that is neither `/` nor `.`. |
| Editor.StripExtensionExact | src/components/WatermarkEditor.tsx:96 | A base followed by a final extension strips to exactly the base. |
| Editor.StripExtensionKeeps | src/components/WatermarkEditor.tsx:96 | A name with no final extension is kept whole. |
| Editor.TrailingDotNamesDiffer | src/components/WatermarkEditor.tsx:96 | A name ending in a bare dot keeps the dot in the save name, while the export name splits it off as the extension ".". |
| Batch.BatchWatermark.constructor | src/components/BatchWatermark.tsx:27-28 | The list starts empty and not processing. |
| Batch.BatchWatermark.SelectImage | src/components/BatchWatermark.tsx:33-41 | A pending record with the fresh id is appended at the end; the earlier records are unchanged and ids stay unique. |
| Batch.BatchWatermark.FinishLoad | src/components/BatchWatermark.tsx:43-61 | On success the record with that id gains the image data and preview and stays pending. On failure it becomes an error with message "加载失败". No other record changes. |
| Batch.Update | src/components/BatchWatermark.tsx:47-51 | Mapping by id keeps the length and changes exactly the records with that id. |
| Batch.UpdateAt | src/components/BatchWatermark.tsx:47-51 | With unique ids, an update by id changes only the record at its position and keeps the ids unique. |
| Batch.BatchWatermark.RemoveImage | src/components/BatchWatermark.tsx:64-72 | The list becomes the filtered list without that id. |
| Batch.Removed | src/components/BatchWatermark.tsx:70 | Filtering by id never lengthens the list; `Batch.RemovedMembers`, `Batch.RemovedAppend` and `Batch.RemovedAt` state which records stay and in what order. |
| Batch.RemovedMembers | src/components/BatchWatermark.tsx:70 | A record stays iff it was present and its id differs. |
| Batch.RemovedAppend | src/components/BatchWatermark.tsx:70 | Removal distributes over concatenation, so the order is kept. |
| Batch.RemovedAbsent | src/components/BatchWatermark.tsx:70 | Removing an absent id changes nothing. |
| Batch.RemovedAt | src/components/BatchWatermark.tsx:64-72 | With unique ids, removing the id at position p deletes exactly that position. |
| Batch.RemovedKeepsUnique | src/components/BatchWatermark.tsx:64-72 | Removal shortens the list by one exactly when the id is present, and keeps ids unique. |
| Batch.BatchWatermark.Clear | src/components/BatchWatermark.tsx:137-144 | The list becomes empty. |
| Batch.CompletedCount | src/components/BatchWatermark.tsx:146 | The completed counter is at most the list length, and is 0 iff no record is completed. |
| Batch.ErrorCount | src/components/BatchWatermark.tsx:147 | The error counter is at most the list length, and is 0 iff no record is in error. |
| Batch.PendingCount | src/components/BatchWatermark.tsx:148-150 | The pending counter (pending or processing records) is 0 iff every record is completed or in error. |
| Batch.StatusCountsAddUp | src/components/BatchWatermark.tsx:146-150 | Completed, error and pending-or-processing counts add up to the length of the list. |
| Batch.CountStatusAppend | src/components/BatchWatermark.tsx:146-150 | Status counts add over concatenation. |
| Batch.Processed | src/components/BatchWatermark.tsx:85-119 | A record without image data, or with an error, is skipped unchanged. Any other record, completed ones included, ends completed iff rendering succeeded and in error otherwise, keeping its id, file, data and preview. |
| Batch.BatchWatermark.BatchProcess | src/components/BatchWatermark.tsx:74-135 | An empty list changes nothing. Otherwise the list becomes the processed list and processing is off afterwards. The export names are one per record completed in this run, in list order. Building the archive is attempted iff that list is not empty. |
| Batch.BatchWatermark.RunBatch | src/components/BatchWatermark.tsx:84-120 | The loop over the snapshot processes every record in order and collects the export names. |
| Batch.BatchWatermark.ProcessRecord | src/components/BatchWatermark.tsx:85-119 | One iteration settles record k as `Processed` says, going through "processing". It exports that record's name iff it completes, and keeps ids and their uniqueness. |
| Batch.RunSettlesEveryRecord | src/components/BatchWatermark.tsx:84-120 | After a run, ids and files are in place. Eligible records are completed or in error by their outcome, and skipped ones are unchanged. No record is left processing unless it never had image data. |
| Batch.ExportsPerCompleted | src/components/BatchWatermark.tsx:105-127 | The export list has one name per record completed in the run. It is empty iff no record completed. |
| Batch.CompletedAfterRun | src/components/BatchWatermark.tsx:84-150 | After a run the completed count is the records completed in this run plus the skipped records that were already completed. |

## Left out

- Pixels, glyph painting, image decoding and smoothing are not modelled. The log records which `drawImage`, `fillText` and `strokeText` calls are made and in what state.
- `measureText` is a function the context receives. `Math.sqrt` gives the diagonal `D`, a parameter with `D ≥ 0` and `D·D = W·W + H·H`. The rotation angle is kept as given, and the conversion to radians with `Math.PI` is not computed. Floating-point rounding is not modelled: all lengths are real numbers.
- The font string `${size}px <family>` is kept as a pair of size and family. `Canvas.Context.SetFont` always takes it. A browser ignores a font string it cannot parse, such as a negative size; the font-size slider (src/components/WatermarkEditor.tsx:176-183, 10 to 64) never produces one. The parsing of colour strings by the canvas is not modelled.
- `canvasToBlob`, `downloadCanvas`, `downloadBlob` and `createZipFromImages` are browser Blob, anchor and JSZip I/O. A batch run takes, for each record, whether rendering and encoding succeeded. It returns the export names and whether building the archive is attempted. Whether `createZipFromImages` then succeeds is not modelled; the handler catches its failure.
- `new Date()` becomes a `DateTime` parameter, and `Math.random()` ids become a fresh-id parameter that must not already be in the list.
- The awaits of the batch handlers run without other events interleaving: a run is a loop over a snapshot, and loading is modelled as a separate completion step.
- The object URLs of previews are kept as strings. `revokeObjectURL` is not modelled.
- ExifReader tag parsing and image loading are outcomes the model receives.
- `getExifOrientation` passes unchecked tag values through. The dimension rule and the transform treat them as the source's range tests and `switch` do.
- Zip.GenerateFilename: JavaScript's `$`-pattern expansion in `String.replace` replacement strings is not modelled. The basename is substituted literally, as if it contains no `$`.
- Zip.FormatFileSize: only the zero case is modelled. The result is `None` for any other size, because the unit choice uses floating-point `Math.log` and `toFixed`.
- Exif.CreateOrientedCanvas: requires a non-negative scale. The source's parameter defaults to 1 and no caller passes another value; a negative scale would make the canvas sides negative, which the "high DPI scaling" it is meant for (src/lib/canvas/exif.ts:166) never asks for.
- Zip.IndexStr: the index is an optional non-negative whole number (`Option<nat>`), where the source's parameter is any `number`. The only caller passes no index (src/components/BatchWatermark.tsx:103), and an index counts files from 0.
- Zip.DateStrValue: years are taken as non-negative whole numbers, because `getFullYear` of real dates is.
- Watermark.DrawTiledWatermark: requires a positive spacing and a non-negative line height in tiled mode, so that both grid steps are positive. The source itself only needs both steps (`maxTextWidth + spacing` and `lines·lineHeight + spacing`) to be positive; with a step of 0 or below its counts are infinite or NaN. The stronger precondition is met by every caller: the sliders keep the spacing in 8 to 80 and the line height in 16 to 120 (src/components/WatermarkEditor.tsx:157-174), the defaults are 70 and 90 (src/hooks/useWatermarkState.ts:26-27), and the batch screen uses the same settings (src/components/BatchWatermark.tsx:30). The same precondition, through `WatermarkInputs`, is carried by Watermark.ApplyWatermark, Watermark.WatermarkedCanvas, Watermark.DrawImageAndWatermark, Watermark.DrawWatermark, Watermark.DrawLines, Watermark.WatermarkCalls, Watermark.LinesCalls, Watermark.ModeCalls, Watermark.WatermarkCallsDrawLines, Watermark.ModeCallsDrawLines, Watermark.TiledGrid, Watermark.PlanGrid, Watermark.PlanGridSpans and Watermark.ScaledSizesUsable.
- Watermark.ResizedSize: requires non-negative sides and a non-negative maximum. A negative maximum is not handled.
- Watermark.ResizedCanvas: takes the whole part of each computed side, as the canvas does on assignment. Rounding of non-integral values by the browser beyond that is not modelled.
- Watermark.AllFieldsTemplate: is stated for the six single-field keys joined by the source's separators. The composite keys are shown only through `Watermark.KeysNotNested` and the worked example.
- Watermark.KeysNotNested: shows that no key occurs inside another. It does not go on to prove that every order of the table gives the same result; the model applies the entries in the source's order.
- The React rendering of the batch screen, the toasts, and the other screens and components are not modelled.
