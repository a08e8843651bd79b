# favicon-forge, modelled in Dafny

favicon-forge is a browser tool that turns an uploaded image, or a few
characters of text or emoji, into a set of favicons. Six square PNGs are
rendered (16, 32, 48, 180, 192 and 512 pixels), each drawn as an optional
rounded clip, a background, then the content. The content is either the
image cropped to a square or the text fitted by a binary search over font
sizes. The PNGs are packed into a ZIP archive together with a copy of the
32-pixel PNG named `favicon.ico` and a `head-snippet.html` holding the
`<link>` tags and installation notes.

This project models the core of that tool:

- the generator library: the size and file-name tables, rendering one icon
  and the six icons, packing the archive, file validation and
  type detection;
- the snippet texts;
- the tool component: its state and handlers, the effect that rebuilds the
  configuration when the tab changes, the preview effect with its
  cancellation flag, the four-grapheme text limit, the emoji splice, and
  the guard on the generate button;
- the generator hook's status machine;
- the controls panel's handlers, hex-colour filter and presets.

The canvas is modelled as a log of drawing commands (`Canvas.DrawCmd`).
Everything the browser provides is a parameter:

- `Platform`: whether a 2D context exists, `measureText`, and the PNG and
  data-URL encoders, all as functions of the log;
- `load`: the image decoder;
- `encodeText`: the `TextEncoder`;
- `zip`: the archiver;
- `segmenter`: the optional grapheme segmenter;
- `browserError`: the browser probe's result.

The generator's asynchronous steps become method calls, and the component's
and hook's state setters become field updates on a class (`FaviconTool.Tool`,
`GeneratorHook.Hook`, `ControlsPanel.Panel`). Each React effect is modelled
as a method the handler calls after it changes one of the effect's
dependencies.

Module layout, one file each, following the program's structure:
`Wrappers`, `Types` (types.ts), `Tables`, `CropRect` and `Canvas` (the
crop arithmetic and the clip of generator.ts), `GlyphFit` (the font search),
`Compositor` (what is drawn inside the frame), `Generator` (generateIcon and
generateIcons), `Validation`, `Snippet`, `Archive` (buildZip), `Generation`
(the generate-then-zip pipeline both callers share), `FaviconTool`,
`GeneratorHook` and `ControlsPanel`.

In the source, `GeneratorConfig` in src/lib/favicon/types.ts:7-11 has no
`mode`, while generator.ts reads `config.mode` and imports mode-specific
types that types.ts does not declare. The model follows generator.ts: its
`Types.Config` is a tagged union of image mode and custom mode, and the
hook's mode-less configuration is `Types.PanelConfig`.

## Model

| member | source | states |
|---|---|---|
| Types.MergeTouchesOnlySuppliedFields | src/lib/hooks/useFaviconGenerator.ts:85-87 | an object spread of a partial update replaces exactly the supplied fields and keeps the others |
| Types.MergeIsIdempotent | src/lib/hooks/useFaviconGenerator.ts:85-87 | applying the same update twice is applying it once; the empty update changes nothing |
| Types.MergeComposes | src/lib/hooks/useFaviconGenerator.ts:85-87 | two updates in a row equal one merged update in which the later one's fields win |
| Tables.Filename | src/lib/favicon/generator.ts:15-22 | every size's file name is in the table and differs from the `.ico` and snippet names |
| Tables.SizesAreTheSizeType | src/lib/favicon/generator.ts:13 | the size list has six entries, holds every favicon size, and is strictly increasing |
| Tables.FilenamesInjective | src/lib/favicon/generator.ts:15-22 | distinct sizes have distinct file names |
| CropRect.RoundIsNearest | src/lib/favicon/generator.ts:116-119 | `Math.round` gives the integer within half of x, with halves rounding up |
| CropRect.ClampSpan | src/lib/favicon/generator.ts:122-125 | the clamped origin and extent always lie inside the axis with the extent at least 1 |
| CropRect.AxisSpan | src/lib/favicon/generator.ts:116-125 | rounding and then clamping a fractional span gives a span inside the axis |
| CropRect.PixelRectOf | src/lib/favicon/generator.ts:116-125 | the source rectangle of any crop, even a degenerate one, is non-empty and inside the image |
| CropRect.DefaultCropShape | src/lib/favicon/generator.ts:108-114 | the default crop covers the shorter side on each axis and is centred, with non-negative offsets |
| CropRect.AxisShape | src/lib/favicon/generator.ts:110-113 | on one axis, the default crop's extent scales back to the side and its two margins are equal |
| CropRect.ClampKeepsFittingSpan | src/lib/favicon/generator.ts:122-125 | the clamp leaves a span that already fits unchanged |
| CropRect.CentredAxis | src/lib/favicon/generator.ts:111-117 | the rounded centred offset leaves margins that differ by at most one pixel |
| CropRect.DefaultAxis | src/lib/favicon/generator.ts:108-125 | on one axis, the default crop becomes exactly the rounded centred offset with the side as extent |
| CropRect.DefaultCropIsCentredSquare | src/lib/favicon/generator.ts:108-125 | the default crop's pixel rectangle is the min(w, h) square, centred to within one pixel |
| CropRect.DefaultCropExample | src/lib/favicon/generator.ts:108-125 | a 200x100 image crops to the rectangle (50, 0, 100, 100) |
| CropRect.DegenerateCropExample | src/lib/favicon/generator.ts:122-125 | a crop outside the image with zero width is clamped to the last column, one pixel wide |
| Canvas.Background | src/lib/favicon/generator.ts:92-100 | the background step is a fill with the colour, or a clear for an empty or `transparent` colour |
| Canvas.FramedBalanced | src/lib/favicon/generator.ts:71-173 | when the content only paints, a render saves once for a positive radius and restores as often as it saves |
| Canvas.FramedOrder | src/lib/favicon/generator.ts:71-173 | the render log is the save and rounded clip, then the background, then the content, then the restore |
| Canvas.EmptyRenderOnlyClears | src/lib/favicon/generator.ts:94-132 | with nothing to draw and a transparent background, the only painting command is the clear |
| Canvas.ClipRadiusExample | src/lib/favicon/generator.ts:72 | a 50% radius on 32 pixels is 16 |
| GlyphFit.MeasureBox | src/lib/favicon/generator.ts:141-148 | the measured width is the metric's width; without ascent and descent the height is the font size |
| GlyphFit.FitFontSize | src/lib/favicon/generator.ts:137-161 | the binary search returns at least 8; a result above 8 is in range and fits 85% of the side; for a monotone measure no larger size in range fits |
| GlyphFit.FitIsUnique | src/lib/favicon/generator.ts:151-161 | for a monotone measure the search's result is determined |
| GlyphFit.FallbackMeansNothingFits | src/lib/favicon/generator.ts:151 | returning 8 when 8 does not fit means no size in range fits |
| GlyphFit.FitMonotoneInSide | src/lib/favicon/generator.ts:137-161 | a larger canvas never gets a smaller font |
| GlyphFit.LinearIsMonotone | src/lib/favicon/generator.ts:141-148 | the linear example measure is monotone |
| GlyphFit.LinearFit | src/lib/favicon/generator.ts:137-161 | for a measure linear in the font size, the font is the floor of 85% of the side |
| GlyphFit.LinearFitExample | src/lib/favicon/generator.ts:137-161 | at 32 pixels the linear measure's font is 27 |
| Compositor.TextColorOr | src/lib/favicon/generator.ts:164 | an empty text colour falls back to a non-empty one, and any other colour is kept |
| Compositor.ImageContent | src/lib/favicon/generator.ts:104-128 | image content is one draw of an in-bounds source rectangle |
| Compositor.ContentPaints | src/lib/favicon/generator.ts:129-167 | glyph content contains only painting commands |
| Compositor.DrawGlyph | src/lib/favicon/generator.ts:132-166 | the text is drawn centred in its colour, at a font size that meets the fit specification |
| Generator.Message | src/lib/favicon/generator.ts:63-200 | the thrown errors carry their fixed messages; the image load and the missing source carry none |
| Generator.OpenClip | src/lib/favicon/generator.ts:71-90 | the clip step is a save and a rounded clip exactly when the radius is positive |
| Generator.PaintBackground | src/lib/favicon/generator.ts:92-100 | the background is cleared exactly for an empty or `transparent` colour |
| Generator.DrawContent | src/lib/favicon/generator.ts:102-168 | image mode without an image draws nothing and throws; otherwise the content meets its specification |
| Generator.GenerateIcon | src/lib/favicon/generator.ts:55-191 | no context fails before drawing; image mode without an image fails with the clip left open; otherwise the icon is the encoded framed render under the table's file name, or the blob error |
| Generator.GenerateIcons | src/lib/favicon/generator.ts:196-209 | a missing source or an image that does not decode fails; otherwise the first failing size's error, or all six icons in table order, each rendered; once rendering can start with a context, the only failure is the blob error |
| Generator.ContentSpecPaints | src/lib/favicon/generator.ts:102-168 | whatever a render draws as content only paints |
| Generator.RenderIsBalanced | src/lib/favicon/generator.ts:71-173 | every completed render restores exactly what it saved |
| Generator.ImageRenderDrawsCroppedImage | src/lib/favicon/generator.ts:102-128 | an image render draws one in-bounds rectangle, the centred default square when no crop is set |
| Generator.EmptyTextDrawsNothing | src/lib/favicon/generator.ts:131-132 | custom mode with empty text draws no content, so the icon is the frame alone |
| Generator.GlyphRenderFontInRange | src/lib/favicon/generator.ts:132-166 | a text render fills the text at the centre with a font between 8 and 1.5 times the side |
| Generator.MissingImageLeavesClipOpen | src/lib/favicon/generator.ts:73-103 | when image mode throws for a missing image the save is never restored |
| Validation.MimeOf | src/lib/favicon/generator.ts:270-279 | every image kind's MIME type is one of the allowed ones |
| Validation.ValidateImageFile | src/lib/favicon/generator.ts:252-265 | a file passes exactly when it is at most 10 MiB with an allowed type; size is reported before type |
| Validation.GetImageType | src/lib/favicon/generator.ts:270-283 | the four allowed types map to their kinds and anything else fails with `Unsupported file type` |
| Validation.KindRoundTrip | src/lib/favicon/generator.ts:270-283 | detecting the type of a kind's MIME type gives back the kind |
| Validation.ValidatedFileHasKind | src/lib/favicon/generator.ts:252-283 | a file that passes validation always has a detectable type |
| Validation.SizeCheckedFirst | src/lib/favicon/generator.ts:254-262 | a file both too large and of a wrong type gets the size error |
| Validation.LimitIsInclusive | src/lib/favicon/generator.ts:254 | exactly 10 MiB passes and one byte more fails |
| Snippet.Split | src/lib/favicon/generator.ts:233 | splitting always gives at least one line |
| Snippet.SplitThenJoin | src/lib/favicon/generator.ts:233 | `split('\n').join(sep)` replaces every newline by sep |
| Snippet.SplitJoinRoundTrip | src/lib/favicon/snippet.ts:1-10 | lines without the separator, joined by it and split at it, come back unchanged |
| Snippet.HeadSnippetLines | src/lib/favicon/snippet.ts:1-10 | the snippet splits at its line breaks into exactly seven lines, line i the i-th link tag |
| Snippet.RenderEntries | src/lib/favicon/snippet.ts:18-25 | the file list has one rendered line per included file, in order |
| Snippet.NatToString | src/lib/favicon/snippet.ts:3-8 | every size has a non-empty decimal form |
| Snippet.ShortDimValues | src/lib/favicon/snippet.ts:3-5 | the two-digit sizes are written 16x16, 32x32 and 48x48 |
| Snippet.LongDimValues | src/lib/favicon/snippet.ts:6-8 | the three-digit sizes are written 180x180, 192x192 and 512x512 |
| Snippet.HrefsAgreeWithTable | src/lib/favicon/snippet.ts:3-8 | the six size tags follow size order and link each size's table file name |
| Snippet.SizesAgreeWithTable | src/lib/favicon/snippet.ts:3-8 | each size tag declares its own size, and only the touch icon omits the PNG type |
| Snippet.SnippetEndsWithIco | src/lib/favicon/snippet.ts:9 | the seventh and last tag links `favicon.ico` |
| Snippet.OnlyTouchIconIs180 | src/lib/favicon/snippet.ts:6 | only the 180-pixel tag is an Apple touch icon |
| Snippet.InstructionsListEveryFile | src/lib/favicon/snippet.ts:18-25 | the instructions list the six PNGs in table order, then `favicon.ico` |
| Archive.ArchiveMessage | src/lib/favicon/generator.ts:241 | the ZIP failure message is the fixed prefix followed by the archiver's message |
| Archive.FirstWithSize | src/lib/favicon/generator.ts:224 | `find` fails exactly when no icon has the size, and otherwise gives an icon of that size |
| Archive.AddIcons | src/lib/favicon/generator.ts:218-221 | the loop stores every icon under its file name, later entries overwriting earlier ones |
| Archive.PackEntries | src/lib/favicon/generator.ts:215-235 | the files are the icons, then the `.ico` copy when a 32-pixel icon exists, then the snippet |
| Archive.BuildZip | src/lib/favicon/generator.ts:214-247 | the archiver gets the packed files holding the full snippet; its failure becomes `Failed to create ZIP: ` plus its message |
| Archive.IconEntryKeys | src/lib/favicon/generator.ts:218-221 | the icon entries are keyed by exactly the icons' file names |
| Archive.LaterDuplicateWins | src/lib/favicon/generator.ts:220 | for a repeated file name the last icon's bytes are kept |
| Archive.ArchiveKeys | src/lib/favicon/generator.ts:215-235 | the archive's names are the icons' names, `favicon.ico` if a 32-pixel icon exists, and the snippet |
| Archive.UpdateKeys | src/lib/favicon/generator.ts:220-235 | storing a file under a name adds exactly that name |
| Archive.IcoCopiesFirst32 | src/lib/favicon/generator.ts:224-228 | `favicon.ico` holds the bytes of the first 32-pixel icon |
| Archive.NoIcoWithout32 | src/lib/favicon/generator.ts:224-228 | without a 32-pixel icon no `favicon.ico` is written |
| Archive.SnippetEntry | src/lib/favicon/generator.ts:235 | the snippet entry holds the encoded snippet |
| Archive.SnippetWrapping | src/lib/favicon/generator.ts:231-233 | the full snippet is the head snippet, a blank line, and the instructions indented inside a comment |
| Archive.DistinctIconKeys | src/lib/favicon/generator.ts:218-221 | icons with distinct names give one entry each |
| Archive.EntryCount | src/lib/favicon/generator.ts:215-235 | with a 32-pixel icon and no clashing names the archive has two entries more than the icons |
| Archive.TwoMoreNames | src/lib/favicon/generator.ts:227-235 | the `.ico` and snippet names each add one entry to names that lack them |
| Archive.IconStored | src/lib/favicon/generator.ts:218-235 | an icon whose name is not reused later and is not one of the two fixed names keeps its bytes in the archive |
| Archive.FullSetHasEightEntries | src/lib/favicon/generator.ts:214-235 | the six generated icons give an archive of eight entries whose `.ico` is the 32-pixel icon |
| Archive.FullSetStoresEveryIcon | src/lib/favicon/generator.ts:214-235 | every one of the six icons is stored under its name with its bytes |
| Archive.FullSetNames | src/lib/favicon/generator.ts:15-22 | the six icons' names are pairwise distinct and differ from the two fixed names |
| Archive.SecondIsFirst32 | src/lib/favicon/generator.ts:224 | in table order the 32-pixel icon is the second |
| Generation.FailureText | src/islands/FaviconTool.tsx:109 | an `Error`'s message is shown, and anything else thrown shows the caller's fallback |
| Generation.ProduceArchive | src/islands/FaviconTool.tsx:99-110 | the generate-then-zip pipeline: success is an archive of six rendered icons in table order; a load failure gives the fallback; no context gives its message; any other failure is the blob error or `Failed to create ZIP: <cause>` for the archiver's cause on a rendered icon set, and only the latter when every encode succeeds; when every encode and the archiver succeed, so does the pipeline |
| Generation.RenderFailureOutcome | src/islands/FaviconTool.tsx:99-110 | a rendering error that matches its cause (load, context, blob) makes a failure outcome |
| Generation.PackFailureOutcome | src/islands/FaviconTool.tsx:99-110 | the archiver's failure on a rendered icon set makes the outcome `Failed to create ZIP: <cause>` |
| Generation.SuccessOutcome | src/islands/FaviconTool.tsx:99-110 | the archive of a rendered icon set makes a successful outcome |
| Generation.DownloadsOf | src/islands/FaviconTool.tsx:102-105 | a success downloads one archive under the given name and a failure downloads nothing |
| FaviconTool.NormalizeCrop | src/islands/FaviconTool.tsx:136-140 | the cropper's percentages are turned into fractions |
| FaviconTool.FullSelectionIsWholeImage | src/islands/FaviconTool.tsx:136-140 | selecting 100% of the image crops to the whole image |
| FaviconTool.WholeAxis | src/lib/favicon/generator.ts:116-125 | the whole axis as a crop is the span from 0 to its full length |
| FaviconTool.SwitchKeepsSharedFields | src/islands/FaviconTool.tsx:116-133 | the rebuild keeps the previous radius and background and takes the tab's own fields from state |
| FaviconTool.SwitchDefaults | src/islands/FaviconTool.tsx:120-128 | the `??` defaults apply exactly to missing fields: radius 0, white for an image, transparent for text |
| FaviconTool.SwitchIsIdempotent | src/islands/FaviconTool.tsx:116-133 | rebuilding again from the rebuilt configuration changes nothing |
| FaviconTool.CustomTabInheritsWhite | src/islands/FaviconTool.tsx:10-128 | opened from the initial state the custom tab is white, never its transparent default |
| FaviconTool.RoundTripKeepsBackground | src/islands/FaviconTool.tsx:116-133 | switching to the custom tab and back restores the radius and the background |
| FaviconTool.ConcatPrefix | src/islands/FaviconTool.tsx:256 | joining the first k segments gives a prefix of joining them all |
| FaviconTool.LimitIsPrefix | src/islands/FaviconTool.tsx:252-261 | the limited text is a prefix of what was typed |
| FaviconTool.LimitKeepsShortText | src/islands/FaviconTool.tsx:252-261 | a text of at most four graphemes is kept as it is |
| FaviconTool.LimitBound | src/islands/FaviconTool.tsx:252-261 | the limited text has at most four graphemes, or four code points without a segmenter |
| FaviconTool.LimitIsIdempotent | src/islands/FaviconTool.tsx:252-261 | limiting twice is limiting once |
| FaviconTool.SliceIndex | src/islands/FaviconTool.tsx:271 | `slice` bounds are clamped into the text, and negative bounds count from its end |
| FaviconTool.SpliceReplacesSelection | src/islands/FaviconTool.tsx:269-271 | the emoji replaces exactly the selected characters and keeps what is around them |
| FaviconTool.InsertThenCut | src/islands/FaviconTool.tsx:269-271 | inserting at a caret and cutting the emoji out gives back the text |
| FaviconTool.UnknownCaretAppends | src/islands/FaviconTool.tsx:264-270 | without the input element, or with unknown selection ends, the emoji is appended |
| FaviconTool.OutOfRangeCaretIsClamped | src/islands/FaviconTool.tsx:271 | a selection beyond the text appends the emoji |
| FaviconTool.View | src/islands/FaviconTool.tsx:181-209 | a preview's side is the size capped at 64 |
| FaviconTool.ViewSides | src/islands/FaviconTool.tsx:181-209 | the three small sizes keep their side and the three large ones become 64 |
| FaviconTool.PreviewDefaultCropAgrees | src/islands/FaviconTool.tsx:185-195 | the preview's default crop is the generator's centred square |
| FaviconTool.PreviewMatchesArchive | src/islands/FaviconTool.tsx:173-236 | when tab and configuration agree, a preview draws exactly what the archive renderer draws at that side |
| FaviconTool.PreviewImageInBounds | src/islands/FaviconTool.tsx:185-203 | an image preview draws one in-bounds rectangle, the default square without a crop |
| FaviconTool.DrawPreviewContent | src/islands/FaviconTool.tsx:185-233 | the preview content meets its specification for the tab |
| FaviconTool.BuildPreviews | src/islands/FaviconTool.tsx:171-237 | an undecodable image abandons the run; no context, or the image tab without an image, gives no previews; otherwise every size gets the data URL of its framed preview render |
| FaviconTool.PreviewRun.constructor | src/islands/FaviconTool.tsx:145 | a run starts not canceled |
| FaviconTool.PreviewRun.Cancel | src/islands/FaviconTool.tsx:242 | the cleanup marks the run canceled |
| FaviconTool.EnabledButtonPassesGuard | src/islands/FaviconTool.tsx:289 | with the configuration in step with the tab, the handler's mode test and the button's tab test agree |
| FaviconTool.ErrorOf | src/islands/FaviconTool.tsx:98-109 | an error is shown exactly on failure, and it is the failure's message |
| FaviconTool.Tool.constructor | src/islands/FaviconTool.tsx:8-30 | the initial state: the image tab, no image, image mode with radius 0 on white, the sample text in black |
| FaviconTool.Tool.SyncConfig | src/islands/FaviconTool.tsx:116-133 | the rebuild effect leaves the configuration in step with the tab and changes nothing else |
| FaviconTool.Tool.SelectTab | src/islands/FaviconTool.tsx:301-307 | a tab button switches the tab and rebuilds the configuration, keeping radius and background |
| FaviconTool.Tool.HandleFile | src/islands/FaviconTool.tsx:62-76 | a file that fails validation only sets the error; a valid file becomes the source with its kind |
| FaviconTool.Tool.OnCropComplete | src/islands/FaviconTool.tsx:136-140 | without an image, nothing changes; otherwise the normalised crop is stored and the configuration follows it |
| FaviconTool.Tool.SetCustomTextLimited | src/islands/FaviconTool.tsx:252-261 | the text becomes the limited value and the configuration follows it |
| FaviconTool.Tool.InsertEmojiAtCaret | src/islands/FaviconTool.tsx:263-273 | the text becomes the limited splice; the picker closes only when the input element exists |
| FaviconTool.Tool.OnTextColorChange | src/islands/FaviconTool.tsx:519-525 | the text colour changes and the configuration follows it |
| FaviconTool.Tool.OnRadiusChange | src/islands/FaviconTool.tsx:480 | only the configuration's radius changes |
| FaviconTool.Tool.OnBackgroundChange | src/islands/FaviconTool.tsx:493-499 | only the configuration's background changes, unfiltered |
| FaviconTool.Tool.OnTransparentToggle | src/islands/FaviconTool.tsx:506 | the background becomes `transparent` when checked and white when unchecked |
| FaviconTool.Tool.OnRemove | src/islands/FaviconTool.tsx:359-365 | removal clears the image and the crop, resets the zoom, and rebuilds the configuration |
| FaviconTool.Tool.CommitPreview | src/islands/FaviconTool.tsx:238 | a canceled run commits nothing; otherwise its previews replace the shown ones |
| FaviconTool.Tool.RunPreview | src/islands/FaviconTool.tsx:144-243 | one effect run: canceled or abandoned runs change nothing; otherwise only the previews change: none without a context or on the image tab without an image, one for every size when there is a context and the custom tab or an image, each a framed preview of its size |
| FaviconTool.Tool.GenerateFavicons | src/islands/FaviconTool.tsx:95-113 | image mode without an image does nothing; otherwise the pipeline's outcome decides between a `favicons.zip` download and its error, and generation ends not running |
| GeneratorHook.UnsupportedBrowser | src/lib/hooks/useFaviconGenerator.ts:41 | the upload error is the fixed prefix, then the probe's reason, then the fixed suffix |
| GeneratorHook.CannotGenerate | src/lib/hooks/useFaviconGenerator.ts:101 | the generate error is the fixed prefix, then the probe's reason |
| GeneratorHook.MessagesKeepReason | src/lib/hooks/useFaviconGenerator.ts:41-101 | the reason can be read back from either message: equal messages come from equal reasons |
| GeneratorHook.AsWrittenIconsAreBlank | src/lib/hooks/useFaviconGenerator.ts:111 | as written, the image is never decoded and every icon is the frame alone |
| GeneratorHook.IntendedIconsShowImage | src/lib/hooks/useFaviconGenerator.ts:111 | as intended, every icon is the framed centred square of the decoded image |
| GeneratorHook.Hook.constructor | src/lib/hooks/useFaviconGenerator.ts:16-29 | the hook starts idle with no image, no error and the default configuration |
| GeneratorHook.Hook.ClearError | src/lib/hooks/useFaviconGenerator.ts:31-33 | only the error is cleared |
| GeneratorHook.Hook.HandleFileUpload | src/lib/hooks/useFaviconGenerator.ts:35-83 | an unsupported browser, a failed validation or an undecodable image sets its validation error and keeps the state; a decodable image becomes the source and the hook is ready |
| GeneratorHook.Hook.UpdateConfig | src/lib/hooks/useFaviconGenerator.ts:85-87 | the update's fields replace the configuration's |
| GeneratorHook.AsWrittenArchiveIsBlank | src/lib/hooks/useFaviconGenerator.ts:111-114 | as written, every archive generated holds six frame-only icons, whatever was uploaded |
| GeneratorHook.IntendedArchiveShowsImage | src/lib/hooks/useFaviconGenerator.ts:111-114 | as intended, every archive generated holds six icons of the decoded upload's centred square |
| GeneratorHook.Hook.GenerateWith | src/lib/hooks/useFaviconGenerator.ts:89-135 | no image or an unsupported browser sets its error and keeps the status; otherwise the status passes through generating back to ready, and the pipeline's outcome for the given generator configuration is downloaded or shown as a generation error |
| GeneratorHook.Hook.GenerateZip | src/lib/hooks/useFaviconGenerator.ts:89-135 | the request as written: the same status machine with the mode-less configuration, so a downloaded archive holds only frame-only icons |
| GeneratorHook.Hook.GenerateZipCorrected | src/lib/hooks/useFaviconGenerator.ts:89-135 | the request as intended: the same status machine in image mode, so a downloaded archive shows the uploaded image |
| GeneratorHook.Hook.Reset | src/lib/hooks/useFaviconGenerator.ts:137-145 | reset returns to idle with no image, no error and the default configuration |
| ControlsPanel.HexRunMeans | src/islands/components/ControlsPanel.tsx:40 | the hex run accepts exactly up to the budget of hex digits |
| ControlsPanel.PatternMeans | src/islands/components/ControlsPanel.tsx:40 | the field's pattern accepts exactly `#` followed by zero to six hex digits |
| ControlsPanel.EmitsIffSixHexDigits | src/islands/components/ControlsPanel.tsx:38-47 | the hex field emits exactly for `#` and six hex digits, and emits only that colour |
| ControlsPanel.ShortPrefixesEmitNothing | src/islands/components/ControlsPanel.tsx:40-41 | partial colours pass the pattern but emit nothing, and longer or non-hex values fail it |
| ControlsPanel.PresetConfig | src/islands/components/ControlsPanel.tsx:64-181 | every preset lies within the sliders' ranges |
| ControlsPanel.PresetColoursPassHexField | src/islands/components/ControlsPanel.tsx:40-181 | every preset colour is one the hex field would pass on |
| ControlsPanel.PresetOverridesAll | src/islands/components/ControlsPanel.tsx:148-181 | a preset replaces the whole configuration |
| ControlsPanel.PresetsAreDistinct | src/islands/components/ControlsPanel.tsx:148 | the Default preset is the hook's default configuration, and no two presets agree |
| ControlsPanel.Panel.constructor | src/islands/components/ControlsPanel.tsx:11 | the local copy starts as the given configuration and nothing has been emitted |
| ControlsPanel.Panel.SyncFromProp | src/islands/components/ControlsPanel.tsx:14-16 | a new configuration passed in replaces the local copy |
| ControlsPanel.Panel.Apply | src/islands/components/ControlsPanel.tsx:21-22 | an update is merged into the local copy and handed to the parent |
| ControlsPanel.Panel.HandlePaddingChange | src/islands/components/ControlsPanel.tsx:18-23 | only the padding changes, and that update alone is emitted |
| ControlsPanel.Panel.HandleRadiusChange | src/islands/components/ControlsPanel.tsx:25-30 | only the radius changes, and that update alone is emitted |
| ControlsPanel.Panel.HandleColorChange | src/islands/components/ControlsPanel.tsx:32-36 | the picker's colour is taken and emitted as it is |
| ControlsPanel.Panel.HandleHexColorChange | src/islands/components/ControlsPanel.tsx:38-47 | a full colour is merged and emitted, and anything else changes nothing |
| ControlsPanel.Panel.ApplyPreset | src/islands/components/ControlsPanel.tsx:148-181 | a preset emits its full update and leaves the local copy to the sync |

## Left out

- Rasterisation and PNG/ZIP encoding: the canvas is a command log, and `toBlob`, `toDataURL`, `TextEncoder` and the ZIP archiver are parameters whose bytes are not modelled.
- Image decoding (`loadImage`, generator.ts:27-50, and the hook's trial load): a `load` parameter that gives the dimensions or fails. The SVG and bitmap paths are not told apart.
- Image dimensions are at least 1 pixel. A zero-sized image makes the JavaScript crop arithmetic divide by zero, and that case is not modelled.
- `checkBrowserSupport` (generator.ts:288-302) probes browser APIs. The hook takes its result as the `browserError` input.
- Text measurement is a `measureText` parameter, and `Intl.Segmenter` is an optional `segmenter` parameter. Their properties (spelling the text, being monotone) are assumed only where a lemma's requires says so.
- Asynchrony and React scheduling: each `await` is done in order, and the `isGenerating`/`generating` states are transient inside one method call. The hook's `statusTrace` records the status passing through generating.
- The configuration rebuild effect is triggered in the model by the handlers that change its dependencies, not by React.
- The tool's other state (drag-over, the cropper's pan position, the copied and sticky flags), the markup, the emoji-picker toggle button and the zoom slider are not modelled. The panel's `disabled` prop is cosmetic.
- The auto-contrast button (FaviconTool.tsx:528-544) parses colours with `parseInt` in floating point, so it is not modelled.
- `parseInt` of a slider value is taken as an integer. NaN is not modelled.
- UploadArea.tsx and the site configuration files are not part of this model.
- FaviconTool.Tool.HandleFile: the `catch` that sets 'Failed to process file' when `createObjectURL` throws is not modelled. The object URL is not stored.
- Caret offsets and the code-point limit count Unicode scalar values (Dafny `char`), not UTF-16 code units as JavaScript does. Text outside the Basic Multilingual Plane gets different offsets.
- Generation.FailureText: the `TypeError` raised when image mode dereferences a missing source has an engine-defined message. The model shows the fallback for it, and no caller can reach it anyway.
- Console logging, object-URL revocation, the download anchor element, and the caret restore in `requestAnimationFrame` (FaviconTool.tsx:275-281) are not modelled.
- Padding (`paddingPercent`) is kept in the hook and the panel but never read by the generator, as in the source.
- Long string constants are written as concatenations of shorter literals, which keeps the verifier's cost on them low. Their values are exactly the source's.
- CropRect.PixelRectOf, CropRect.DefaultCrop and GlyphFit.MeasureBox: JavaScript's double-precision numbers are exact reals in the model. Rounding at `Math.round`'s half-way points, `0.85 * side`, `1.5 * side` and `fs * 0.8 + fs * 0.2` are computed without floating-point error, so results that a double would round differently are not modelled.
- Archive.BuildZip: the archive's files are a `map`, so the order in which buildZip inserts them (the icons as given, then `favicon.ico`, then `head-snippet.html`) is not modelled. The archiver is a parameter, so no result of the model depends on that order.

## Kept as written

- When image mode throws for a missing image, the clip saved before it is not restored (Generator.MissingImageLeavesClipOpen).
- A stale preview run is discarded through a `canceled` flag that the effect's cleanup sets (FaviconTool.PreviewRun.Cancel, FaviconTool.Tool.CommitPreview).
- Without a 32-pixel icon, buildZip leaves out `favicon.ico` and reports nothing (Archive.NoIcoWithout32).
- The hook passes its mode-less configuration to the generator (GeneratorHook.Hook.GenerateZip); the corrected request is a separate member, see Findings.

## Findings

| source | as written | input that shows it | evidently intended | confidence | as-written member | corrected member |
|---|---|---|---|---|---|---|
| src/lib/hooks/useFaviconGenerator.ts:111 with src/lib/favicon/generator.ts:102, 131, 196-200 | The hook hands its mode-less `{paddingPercent, radiusPercent, backgroundColor}` configuration to `generateIcons`. `config.mode === 'image'` is false, so no image is loaded and the custom branch renders `text ?? ''`, which is nothing. | Upload any valid PNG and generate with the default configuration: every icon is a plain white square. | The uploaded image, cropped to its centred square, is drawn under the configured radius and background. | not executed | GeneratorHook.Hook.GenerateZip, GeneratorHook.AsWrittenArchiveIsBlank | GeneratorHook.Hook.GenerateZipCorrected, GeneratorHook.IntendedArchiveShowsImage |
