/**
 * The tool island's state rules: the crop normalisation, the configuration
 * rebuilt when the tab or its contents change, the four-segment limit on the
 * custom text, the caret splice of the emoji picker, and the live preview
 * with its cancellation flag.
 */
module FaviconTool {
  import opened Wrappers
  import opened Types
  import opened Tables
  import opened CropRect
  import opened GlyphFit
  import opened Canvas
  import opened Compositor
  import opened Generator
  import opened Validation
  import opened Snippet
  import opened Archive
  import opened Generation

  /* ---------- Crop normalisation ---------- */

  /** The cropper reports its area in percent; the generator takes fractions. */
  function NormalizeCrop(percent: Crop): (c: Crop)
    ensures c.x * 100.0 == percent.x && c.y * 100.0 == percent.y
    ensures c.width * 100.0 == percent.width && c.height * 100.0 == percent.height
  {
    Crop(percent.x / 100.0, percent.y / 100.0, percent.width / 100.0, percent.height / 100.0)
  }

  /** The whole image selected in the cropper normalises to the unit crop, which is the whole image in pixels. */
  lemma FullSelectionIsWholeImage(w: Pixels, h: Pixels)
    ensures NormalizeCrop(Crop(0.0, 0.0, 100.0, 100.0)) == Crop(0.0, 0.0, 1.0, 1.0)
    ensures PixelRectOf(Crop(0.0, 0.0, 1.0, 1.0), w, h) == PixelRect(0, 0, w, h)
  {
    WholeAxis(w);
    WholeAxis(h);
  }

  lemma WholeAxis(n: Pixels)
    ensures AxisSpan(0.0, 1.0, n) == Span(0, n)
  {
    assert Round(0.0 * n as real) == 0;
    assert Round(1.0 * n as real) == n;
    AxisSpanOfRounded(0.0, 1.0, n, 0, n);
    ClampKeepsFittingSpan(0, n, n);
  }

  /* ---------- The configuration of the active tab ---------- */

  /**
   * The shared fields as the rebuild reads them off the previous
   * configuration; the rebuild's defaults are for a field that is absent.
   */
  datatype SharedFields = SharedFields(radiusPercent: Option<int>, backgroundColor: Option<string>)

  /** A configuration built by the tool always carries both shared fields. */
  function FieldsOf(c: Config): SharedFields {
    SharedFields(Some(c.radiusPercent), Some(c.backgroundColor))
  }

  /** The background a tab starts from when the previous configuration has none. */
  function DefaultBackground(tab: Tab): string {
    if tab == ImageTab then "#ffffff" else "transparent"
  }

  /**
   * The configuration rebuilt for the active tab: image mode with the
   * cropped area, or custom mode with the text and its colour; the radius
   * and the background come from the previous configuration.
   */
  function SwitchConfig(tab: Tab, prev: SharedFields, croppedArea: Option<Crop>, text: string, textColor: string): Config {
    var radius := prev.radiusPercent.GetOr(0);
    var bg := prev.backgroundColor.GetOr(DefaultBackground(tab));
    if tab == ImageTab then ImageMode(radius, bg, croppedArea)
    else CustomMode(radius, bg, text, textColor)
  }

  /** The configuration matches the tab and carries the tab's own fields. */
  predicate Synced(c: Config, tab: Tab, croppedArea: Option<Crop>, text: string, textColor: string) {
    match c
    case ImageMode(_, _, crop) => tab == ImageTab && crop == croppedArea
    case CustomMode(_, _, t, color) => tab == CustomTab && t == text && color == textColor
  }

  /**
   * Switching tabs keeps the radius and the background of the previous
   * configuration and takes the tab's own fields from the component state.
   */
  lemma SwitchKeepsSharedFields(tab: Tab, prev: Config, croppedArea: Option<Crop>, text: string, textColor: string)
    ensures var c := SwitchConfig(tab, FieldsOf(prev), croppedArea, text, textColor);
            && c.radiusPercent == prev.radiusPercent
            && c.backgroundColor == prev.backgroundColor
            && Synced(c, tab, croppedArea, text, textColor)
  {
  }

  /** The defaults apply exactly to the absent fields: radius 0, and white for an image or transparent for text. */
  lemma SwitchDefaults(tab: Tab, prev: SharedFields, croppedArea: Option<Crop>, text: string, textColor: string)
    ensures var c := SwitchConfig(tab, prev, croppedArea, text, textColor);
            && (prev.radiusPercent.None? ==> c.radiusPercent == 0)
            && (prev.backgroundColor.None? ==> c.backgroundColor == DefaultBackground(tab))
            && (c.ImageMode? <==> tab == ImageTab)
  {
  }

  /** Rebuilding again from the rebuilt configuration changes nothing. */
  lemma SwitchIsIdempotent(tab: Tab, prev: SharedFields, croppedArea: Option<Crop>, text: string, textColor: string)
    ensures var c := SwitchConfig(tab, prev, croppedArea, text, textColor);
            SwitchConfig(tab, FieldsOf(c), croppedArea, text, textColor) == c
  {
  }

  /** The configuration the tool starts with: image mode, no radius, white, no crop. */
  const InitialConfig: Config := ImageMode(0, "#ffffff", None)

  /**
   * Since every configuration carries its background, the custom tab's
   * transparent default never applies: opened from the initial state the
   * custom tab is white, and a round trip through the other tab restores
   * the background it started with.
   */
  lemma CustomTabInheritsWhite(text: string, textColor: string)
    ensures SwitchConfig(CustomTab, FieldsOf(InitialConfig), None, text, textColor).backgroundColor == "#ffffff"
  {
  }

  lemma RoundTripKeepsBackground(prev: Config, croppedArea: Option<Crop>, text: string, textColor: string)
    ensures var custom := SwitchConfig(CustomTab, FieldsOf(prev), croppedArea, text, textColor);
            var back := SwitchConfig(ImageTab, FieldsOf(custom), croppedArea, text, textColor);
            back.backgroundColor == prev.backgroundColor && back.radiusPercent == prev.radiusPercent
  {
    SwitchKeepsSharedFields(CustomTab, prev, croppedArea, text, textColor);
    SwitchKeepsSharedFields(ImageTab, SwitchConfig(CustomTab, FieldsOf(prev), croppedArea, text, textColor),
                            croppedArea, text, textColor);
  }

  /* ---------- The four-segment limit ---------- */

  const MaxSegments: nat := 4

  /** The segments written one after another. */
  function Concat(segments: seq<string>): string {
    if segments == [] then "" else segments[0] + Concat(segments[1..])
  }

  /** The text of the first k segments is a prefix of the whole text. */
  lemma {:induction false} ConcatPrefix(segments: seq<string>, k: nat)
    requires k <= |segments|
    ensures Concat(segments[..k]) <= Concat(segments)
  {
    if k > 0 {
      ConcatPrefix(segments[1..], k - 1);
      assert segments[..k][1..] == segments[1..][..k - 1];
    }
  }

  /**
   * The custom text limit: with a grapheme segmenter (passed in; None when
   * the platform has none) the first four segments, otherwise the first four
   * code points.
   */
  function Limit(segmenter: Option<string -> seq<string>>, value: string): string {
    if segmenter.Some? then
      var segments := segmenter.value(value);
      Concat(segments[..Min(MaxSegments, |segments|)])
    else value[..Min(MaxSegments, |value|)]
  }

  /** What the limit relies on from the segmenter, at one text: its segments spell the text. */
  ghost predicate Spells(segmenter: Option<string -> seq<string>>, value: string) {
    segmenter.Some? ==> Concat(segmenter.value(value)) == value
  }

  /**
   * What idempotence relies on, at one text: the segments of the first four
   * segments are those four segments.
   */
  ghost predicate PrefixStable(segmenter: Option<string -> seq<string>>, value: string) {
    segmenter.Some? ==>
      var segments := segmenter.value(value);
      segmenter.value(Concat(segments[..Min(MaxSegments, |segments|)])) == segments[..Min(MaxSegments, |segments|)]
  }

  /** The limited text is a prefix of the input. */
  lemma LimitIsPrefix(segmenter: Option<string -> seq<string>>, value: string)
    requires Spells(segmenter, value)
    ensures Limit(segmenter, value) <= value
  {
    if segmenter.Some? {
      var segments := segmenter.value(value);
      ConcatPrefix(segments, Min(MaxSegments, |segments|));
    }
  }

  /** A text of at most four segments (or code points) is kept as it is. */
  lemma LimitKeepsShortText(segmenter: Option<string -> seq<string>>, value: string)
    requires Spells(segmenter, value)
    requires segmenter.Some? ==> |segmenter.value(value)| <= MaxSegments
    requires segmenter.None? ==> |value| <= MaxSegments
    ensures Limit(segmenter, value) == value
  {
    if segmenter.Some? {
      var segments := segmenter.value(value);
      assert segments[..Min(MaxSegments, |segments|)] == segments;
    }
  }

  /** The limited text has at most four segments, or at most four code points without a segmenter. */
  lemma LimitBound(segmenter: Option<string -> seq<string>>, value: string)
    requires PrefixStable(segmenter, value)
    ensures segmenter.Some? ==> |segmenter.value(Limit(segmenter, value))| <= MaxSegments
    ensures segmenter.None? ==> |Limit(segmenter, value)| <= MaxSegments
  {
  }

  /** Limiting twice is limiting once. */
  lemma LimitIsIdempotent(segmenter: Option<string -> seq<string>>, value: string)
    requires Spells(segmenter, Limit(segmenter, value))
    requires PrefixStable(segmenter, value)
    ensures Limit(segmenter, Limit(segmenter, value)) == Limit(segmenter, value)
  {
    LimitBound(segmenter, value);
    LimitKeepsShortText(segmenter, Limit(segmenter, value));
  }

  /* ---------- The caret splice ---------- */

  /** JavaScript's index for `slice`: a negative index counts from the end, and the result lies in [0, n]. */
  function SliceIndex(i: int, n: nat): (k: nat)
    ensures k <= n
    ensures 0 <= i <= n ==> k == i
    ensures i < 0 && -i <= n ==> k == n + i
  {
    if i < 0 then (if n + i < 0 then 0 else n + i)
    else if i > n then n
    else i
  }

  /** `s.slice(0, end)`. */
  function SliceTo(s: string, end: int): string {
    s[..SliceIndex(end, |s|)]
  }

  /** `s.slice(start)`. */
  function SliceFrom(s: string, start: int): string {
    s[SliceIndex(start, |s|)..]
  }

  /** The selection of the text input; either end may be unknown. */
  datatype Caret = Caret(selectionStart: Option<int>, selectionEnd: Option<int>)

  /**
   * The text with the emoji replacing the selection; an unknown end defaults
   * to the end of the text, and without the input element the emoji is
   * appended.
   */
  function Splice(text: string, emoji: string, input: Option<Caret>): string {
    if input.None? then text + emoji
    else
      var start := input.value.selectionStart.GetOr(|text|);
      var end := input.value.selectionEnd.GetOr(|text|);
      SliceTo(text, start) + emoji + SliceFrom(text, end)
  }

  /**
   * For a selection inside the text the splice replaces exactly the selected
   * characters: they are gone, the emoji is in their place, and what was
   * around them is kept.
   */
  lemma SpliceReplacesSelection(text: string, emoji: string, start: int, end: int)
    requires 0 <= start <= end <= |text|
    ensures var next := Splice(text, emoji, Some(Caret(Some(start), Some(end))));
            && |next| == |text| - (end - start) + |emoji|
            && next[..start] == text[..start]
            && next[start..start + |emoji|] == emoji
            && next[start + |emoji|..] == text[end..]
  {
    var next := Splice(text, emoji, Some(Caret(Some(start), Some(end))));
    assert next == text[..start] + emoji + text[end..];
  }

  /** Inserting at a collapsed caret and cutting the emoji out again gives back the text. */
  lemma InsertThenCut(text: string, emoji: string, k: int)
    requires 0 <= k <= |text|
    ensures var next := Splice(text, emoji, Some(Caret(Some(k), Some(k))));
            next[..k] + next[k + |emoji|..] == text
  {
    SpliceReplacesSelection(text, emoji, k, k);
    assert text[..k] + text[k..] == text;
  }

  /** Without an input element, or with an unknown selection, the emoji is appended. */
  lemma UnknownCaretAppends(text: string, emoji: string)
    ensures Splice(text, emoji, None) == text + emoji
    ensures Splice(text, emoji, Some(Caret(None, None))) == text + emoji
  {
    assert text[..|text|] == text && text[|text|..] == "";
  }

  /** A selection past the end or before the start is clamped into the text, as `slice` does. */
  lemma OutOfRangeCaretIsClamped(text: string, emoji: string, start: int, end: int)
    requires start > |text| && end > |text|
    ensures Splice(text, emoji, Some(Caret(Some(start), Some(end)))) == text + emoji
  {
    assert text[..|text|] == text && text[|text|..] == "";
  }

  /* ---------- The preview ---------- */

  /** The preview canvas side: the icon size, at most 64. */
  function View(size: FaviconSize): (v: int)
    ensures 1 <= v <= 64 && v <= size
    ensures v == size || v == 64
  {
    Min(size, 64)
  }

  /** The small sizes preview at their own size, the large ones at 64. */
  lemma ViewSides()
    ensures View(16) == 16 && View(32) == 32 && View(48) == 48
    ensures View(180) == 64 && View(192) == 64 && View(512) == 64
  {
  }

  /** The preview's default crop: the centred square, its offsets not floored at zero. */
  function PreviewDefaultCrop(w: Pixels, h: Pixels): Crop {
    var side := MinReal(w as real, h as real);
    Crop((w as real - side) / 2.0 / w as real, (h as real - side) / 2.0 / h as real, side / w as real, side / h as real)
  }

  /** The floor the generator puts under the default offsets is never needed, so both default crops agree. */
  lemma PreviewDefaultCropAgrees(w: Pixels, h: Pixels)
    ensures PreviewDefaultCrop(w, h) == DefaultCrop(w, h)
  {
    var side := MinReal(w as real, h as real);
    assert MaxReal(0.0, (w as real - side) / 2.0) == (w as real - side) / 2.0;
    assert MaxReal(0.0, (h as real - side) / 2.0) == (h as real - side) / 2.0;
  }

  /** The crop the preview reads off the configuration; a custom configuration has none. */
  function CropOf(c: Config): Option<Crop> {
    if c.ImageMode? then c.crop else None
  }

  /** The text the preview reads off the configuration; an image configuration has none. */
  function TextOf(c: Config): string {
    if c.CustomMode? then c.text else ""
  }

  function TextColorOf(c: Config): string {
    if c.CustomMode? then c.textColor else ""
  }

  /** The image the preview draws: the decoded source, on the image tab only. */
  function PreviewImage(tab: Tab, source: Option<SourceImage>, load: SourceImage -> Option<Dims>): Option<Dims> {
    if tab == ImageTab && source.Some? then load(source.value) else None
  }

  /**
   * What a preview draws inside its frame: on the image tab the image cropped
   * by the configured or the default crop, on the custom tab the glyph
   * content of the configured text.
   */
  ghost predicate PreviewContent(view: int, tab: Tab, config: Config, image: Option<Dims>,
                                 measureText: (string, int) -> TextMetrics, content: seq<DrawCmd>) {
    match tab
    case ImageTab =>
      && image.Some?
      && content == ImageContent(view, CropOf(config).GetOr(PreviewDefaultCrop(image.value.width, image.value.height)), image.value)
    case CustomTab =>
      GlyphContent(view, TextOf(config), TextColorOr(TextColorOf(config)), MeasureFor(measureText, TextOf(config)), content)
  }

  /** The URL of one preview: the data URL of a framed render at the preview side. */
  ghost predicate PreviewEntry(size: FaviconSize, url: string, tab: Tab, config: Config, image: Option<Dims>, p: Platform) {
    exists content ::
      && PreviewContent(View(size), tab, config, image, p.measureText, content)
      && url == p.toDataUrl(View(size), Framed(View(size), config.radiusPercent, config.backgroundColor, content))
  }

  /**
   * When the tab and the configuration agree, a preview draws what the
   * archive renderer draws at the preview's side: the same crop (and so the
   * same clamped rectangle) and the same font fit against 85% of that side.
   */
  lemma PreviewMatchesArchive(view: int, tab: Tab, config: Config, image: Option<Dims>,
                              measureText: (string, int) -> TextMetrics, content: seq<DrawCmd>)
    requires (tab == ImageTab) == config.ImageMode?
    ensures PreviewContent(view, tab, config, image, measureText, content)
            <==> Generator.ContentSpec(view, config, image, measureText, content)
  {
    if tab == ImageTab && image.Some? {
      PreviewDefaultCropAgrees(image.value.width, image.value.height);
    }
  }

  /** The preview of the image tab draws a rectangle inside the image, the centred square when there is no crop. */
  lemma PreviewImageInBounds(view: int, config: Config, d: Dims,
                             measureText: (string, int) -> TextMetrics, content: seq<DrawCmd>)
    requires PreviewContent(view, ImageTab, config, Some(d), measureText, content)
    ensures |content| == 1 && content[0].DrawImage? && InBounds(content[0].src, d.width, d.height)
    ensures CropOf(config).None? ==>
              content[0].src.sw == Min(d.width, d.height) && content[0].src.sh == Min(d.width, d.height)
  {
    if CropOf(config).None? {
      PreviewDefaultCropAgrees(d.width, d.height);
      DefaultCropIsCentredSquare(d.width, d.height);
    }
  }

  /** The content of one preview canvas. */
  method DrawPreviewContent(view: int, tab: Tab, config: Config, image: Option<Dims>, p: Platform)
    returns (content: seq<DrawCmd>)
    requires tab == ImageTab ==> image.Some?
    ensures PreviewContent(view, tab, config, image, p.measureText, content)
  {
    if tab == ImageTab {
      var d := image.value;
      var crop := if CropOf(config).Some? then CropOf(config).value else PreviewDefaultCrop(d.width, d.height);
      content := ImageContent(view, crop, d);
    } else if TextOf(config) != "" {
      var text := TextOf(config);
      var cmd := DrawGlyph(view, text, TextColorOr(TextColorOf(config)), MeasureFor(p.measureText, text));
      content := [cmd];
    } else {
      content := [];
    }
  }

  /**
   * One preview run. A run on the image tab with an image that does not
   * decode is abandoned (None: it never commits); a run on the image tab
   * without a source draws nothing and commits the empty map; otherwise each
   * size for which a context is available gets the data URL of its framed
   * render at the preview side.
   */
  method BuildPreviews(tab: Tab, source: Option<SourceImage>, config: Config,
                       load: SourceImage -> Option<Dims>, p: Platform)
    returns (urls: Option<map<FaviconSize, string>>)
    ensures urls.None? <==> tab == ImageTab && source.Some? && load(source.value).None?
    ensures urls.Some? && (!p.contextAvailable || (tab == ImageTab && source.None?)) ==> urls.value == map[]
    ensures urls.Some? && p.contextAvailable && (tab == CustomTab || source.Some?) ==>
              forall s: FaviconSize :: s in urls.value
    ensures urls.Some? ==> forall s :: s in urls.value ==>
              PreviewEntry(s, urls.value[s], tab, config, PreviewImage(tab, source, load), p)
  {
    var image := PreviewImage(tab, source, load);
    if tab == ImageTab && source.Some? && image.None? {
      return None;
    }
    var built: map<FaviconSize, string> := map[];
    if tab == ImageTab && source.None? {
      return Some(built);
    }
    var i := 0;
    while i < |FaviconSizes|
      invariant 0 <= i <= |FaviconSizes|
      invariant built.Keys == if p.contextAvailable then set j | 0 <= j < i :: FaviconSizes[j] else {}
      invariant forall s :: s in built ==> PreviewEntry(s, built[s], tab, config, image, p)
    {
      var size := FaviconSizes[i];
      if p.contextAvailable {
        var view := View(size);
        var clip := OpenClip(view, config.radiusPercent);
        var background := PaintBackground(view, config.backgroundColor);
        var content := DrawPreviewContent(view, tab, config, image, p);
        var log := clip + [background] + content + ClipClose(config.radiusPercent);
        built := built[size := p.toDataUrl(view, log)];
      }
      i := i + 1;
    }
    SizesAreTheSizeType();
    if p.contextAvailable {
      forall s: FaviconSize ensures s in built {
        assert s in FaviconSizes;
        var j :| 0 <= j < |FaviconSizes| && FaviconSizes[j] == s;
        assert FaviconSizes[j] in built.Keys;
      }
    }
    urls := Some(built);
  }

  /* ---------- The component state ---------- */

  /** The cancellation flag of one preview run, set by the effect's cleanup. */
  class PreviewRun {
    var canceled: bool

    constructor()
      ensures !canceled
    {
      canceled := false;
    }

    /** The cleanup returned by the effect: the run may finish, but must not commit. */
    method Cancel()
      modifies this
      ensures canceled
    {
      canceled := true;
    }
  }

  const ArchiveName: string := "favicons" + ".zip"
  const GenerationFallback: string := "Failed to " + "generate " + "favicons"
  const InitialText: string := "\U{1F60E}Yo"

  /**
   * The button tests the tab and the handler tests the mode; on a synced
   * configuration the two agree, so an enabled button never meets the
   * handler's early return.
   */
  lemma EnabledButtonPassesGuard(c: Config, tab: Tab, croppedArea: Option<Crop>, text: string, textColor: string,
                                 source: Option<SourceImage>)
    requires Synced(c, tab, croppedArea, text, textColor)
    ensures (c.ImageMode? && source.None?) <==> (tab == ImageTab && source.None?)
  {
  }

  /** The message a generation leaves shown: its failure's, or none. */
  function ErrorOf(r: Result<Bytes, string>): (m: Option<string>)
    ensures m.Some? <==> r.Failure?
    ensures r.Failure? ==> m.value == r.error
  {
    if r.Failure? then Some(r.error) else None
  }

  /** Every field of the component at once. */
  datatype ToolState = ToolState(
    activeTab: Tab, sourceImage: Option<SourceImage>, config: Config, error: Option<string>,
    isGenerating: bool, croppedArea: Option<Crop>, zoom: real, customText: string,
    customTextColor: string, emojiOpen: bool, previewUrls: map<FaviconSize, string>,
    downloads: seq<Download>)

  /** The tool island's state and its handlers. */
  class Tool {
    var activeTab: Tab
    var sourceImage: Option<SourceImage>
    var config: Config
    var error: Option<string>
    var isGenerating: bool
    var croppedArea: Option<Crop>
    var zoom: real
    var customText: string
    var customTextColor: string
    var emojiOpen: bool
    var previewUrls: map<FaviconSize, string>
    var downloads: seq<Download>

    function State(): ToolState
      reads this
    {
      ToolState(activeTab, sourceImage, config, error, isGenerating, croppedArea, zoom,
                customText, customTextColor, emojiOpen, previewUrls, downloads)
    }

    /** The configuration is the one the rebuild gives for the tab and its contents. */
    predicate Valid()
      reads this
    {
      Synced(config, activeTab, croppedArea, customText, customTextColor)
    }

    /** The first render: the image tab, no image, the initial configuration, and the sample text. */
    constructor()
      ensures Valid()
      ensures State() == ToolState(ImageTab, None, InitialConfig, None, false, None, 1.0,
                                   InitialText, "#000000", false, map[], [])
    {
      activeTab := ImageTab;
      sourceImage := None;
      config := InitialConfig;
      error := None;
      isGenerating := false;
      croppedArea := None;
      zoom := 1.0;
      customText := InitialText;
      customTextColor := "#000000";
      emojiOpen := false;
      previewUrls := map[];
      downloads := [];
    }

    /** The rebuild effect, run after a change of the tab, the crop, the text or its colour. */
    method SyncConfig()
      modifies this
      ensures Valid()
      ensures State() == old(State()).(config := SwitchConfig(activeTab, FieldsOf(old(config)), croppedArea, customText, customTextColor))
    {
      config := SwitchConfig(activeTab, FieldsOf(config), croppedArea, customText, customTextColor);
    }

    /** A tab button: changes the tab, which rebuilds the configuration keeping its shared fields. */
    method SelectTab(tab: Tab)
      modifies this
      ensures Valid()
      ensures config.radiusPercent == old(config.radiusPercent) && config.backgroundColor == old(config.backgroundColor)
      ensures State() == old(State()).(activeTab := tab,
                                       config := SwitchConfig(tab, FieldsOf(old(config)), croppedArea, customText, customTextColor))
    {
      activeTab := tab;
      SyncConfig();
    }

    /**
     * A chosen file: the error is cleared, a file that fails validation sets
     * its message, and an accepted file becomes the source with its kind.
     */
    method HandleFile(file: FileInfo)
      modifies this
      ensures ValidateImageFile(file).Some? ==> State() == old(State()).(error := ValidateImageFile(file))
      ensures ValidateImageFile(file).None? ==>
                State() == old(State()).(error := None, sourceImage := Some(SourceImage(file, GetImageType(file.mime).value)))
    {
      error := None;
      var validationError := ValidateImageFile(file);
      if validationError.Some? {
        error := validationError;
        return;
      }
      ValidatedFileHasKind(file);
      var kind := GetImageType(file.mime);
      sourceImage := Some(SourceImage(file, kind.value));
    }

    /** The cropper's report, in percent, stored as fractions; ignored while no image is loaded. */
    method OnCropComplete(percent: Crop)
      modifies this
      requires Valid()
      ensures Valid()
      ensures old(sourceImage).None? ==> State() == old(State())
      ensures old(sourceImage).Some? ==>
                && croppedArea == Some(NormalizeCrop(percent))
                && State() == old(State()).(croppedArea := Some(NormalizeCrop(percent)),
                                            config := SwitchConfig(activeTab, FieldsOf(old(config)), croppedArea, customText, customTextColor))
    {
      if sourceImage.None? {
        return;
      }
      croppedArea := Some(NormalizeCrop(percent));
      SyncConfig();
    }

    /** The text input: the value limited to four segments becomes the custom text. */
    method SetCustomTextLimited(segmenter: Option<string -> seq<string>>, value: string)
      modifies this
      ensures Valid()
      ensures customText == Limit(segmenter, value)
      ensures State() == old(State()).(customText := Limit(segmenter, value),
                                       config := SwitchConfig(activeTab, FieldsOf(old(config)), croppedArea, customText, customTextColor))
    {
      customText := Limit(segmenter, value);
      SyncConfig();
    }

    /**
     * An emoji from the picker replaces the selection of the text input (or
     * is appended when there is no input element), then the limit applies;
     * with the input present the picker closes.
     */
    method InsertEmojiAtCaret(segmenter: Option<string -> seq<string>>, emoji: string, input: Option<Caret>)
      modifies this
      ensures Valid()
      ensures customText == Limit(segmenter, Splice(old(customText), emoji, input))
      ensures State() == old(State()).(customText := customText,
                                       config := SwitchConfig(activeTab, FieldsOf(old(config)), croppedArea, customText, customTextColor),
                                       emojiOpen := if input.None? then old(emojiOpen) else false)
    {
      var next := Splice(customText, emoji, input);
      SetCustomTextLimited(segmenter, next);
      if input.Some? {
        emojiOpen := false;
      }
    }

    /** The text colour input. */
    method OnTextColorChange(color: string)
      modifies this
      ensures Valid()
      ensures State() == old(State()).(customTextColor := color,
                                       config := SwitchConfig(activeTab, FieldsOf(old(config)), croppedArea, customText, color))
    {
      customTextColor := color;
      SyncConfig();
    }

    /** The radius slider: only the radius changes. */
    method OnRadiusChange(value: int)
      modifies this
      requires Valid()
      ensures Valid()
      ensures State() == old(State()).(config := old(config).(radiusPercent := value))
    {
      config := config.(radiusPercent := value);
    }

    /** The colour picker and the hex field: only the background changes. */
    method OnBackgroundChange(value: string)
      modifies this
      requires Valid()
      ensures Valid()
      ensures State() == old(State()).(config := old(config).(backgroundColor := value))
    {
      config := config.(backgroundColor := value);
    }

    /** The Transparent checkbox: the background becomes transparent, or white when unchecked; nothing else changes. */
    method OnTransparentToggle(checked: bool)
      modifies this
      requires Valid()
      ensures Valid()
      ensures config.backgroundColor == (if checked then "transparent" else "#ffffff")
      ensures State() == old(State()).(config := old(config).(backgroundColor := if checked then "transparent" else "#ffffff"))
    {
      config := config.(backgroundColor := if checked then "transparent" else "#ffffff");
    }

    /** The Remove button: no image, no crop, zoom back to 1. */
    method OnRemove()
      modifies this
      ensures Valid()
      ensures State() == old(State()).(sourceImage := None, croppedArea := None, zoom := 1.0,
                                       config := SwitchConfig(activeTab, FieldsOf(old(config)), None, customText, customTextColor))
    {
      sourceImage := None;
      croppedArea := None;
      zoom := 1.0;
      SyncConfig();
    }

    /** The generate button is enabled unless the image tab has no image or a generation is running. */
    predicate GenerateEnabled()
      reads this
    {
      !((activeTab == ImageTab && sourceImage.None?) || isGenerating)
    }

    /** The effect's commit: the run's previews replace the shown ones unless the run was canceled. */
    method CommitPreview(run: PreviewRun, urls: map<FaviconSize, string>)
      modifies this
      ensures run.canceled ==> State() == old(State())
      ensures !run.canceled ==> State() == old(State()).(previewUrls := urls)
    {
      if !run.canceled {
        previewUrls := urls;
      }
    }

    /**
     * One run of the preview effect: build, then commit unless canceled.
     * An abandoned build (an image that does not decode) commits nothing.
     */
    method RunPreview(run: PreviewRun, load: SourceImage -> Option<Dims>, p: Platform)
      modifies this
      ensures run.canceled ==> State() == old(State())
      ensures !run.canceled ==>
                if PreviewImage(activeTab, sourceImage, load).None? && activeTab == ImageTab && sourceImage.Some?
                then State() == old(State())
                else && State() == old(State()).(previewUrls := previewUrls)
                     && (!p.contextAvailable || (activeTab == ImageTab && sourceImage.None?) ==> previewUrls == map[])
                     && (p.contextAvailable && (activeTab == CustomTab || sourceImage.Some?) ==>
                           forall s: FaviconSize :: s in previewUrls)
                     && forall s :: s in previewUrls ==>
                          PreviewEntry(s, previewUrls[s], activeTab, config, PreviewImage(activeTab, sourceImage, load), p)
    {
      var urls := BuildPreviews(activeTab, sourceImage, config, load, p);
      if urls.Some? {
        CommitPreview(run, urls.value);
      }
    }

    /**
     * The generate button. In image mode without an image nothing happens.
     * Otherwise the outcome r of producing the archive decides the new state:
     * its archive is downloaded as favicons.zip, or its message is shown;
     * generation ends not running.
     */
    method GenerateFavicons(load: SourceImage -> Option<Dims>, p: Platform,
                            encodeText: string -> Bytes, zip: Files -> Result<Bytes, string>)
      returns (ghost r: Result<Bytes, string>)
      modifies this
      ensures old(config).ImageMode? && old(sourceImage).None? ==> unchanged(this)
      ensures !(old(config).ImageMode? && old(sourceImage).None?) ==>
                && Outcome(r, old(sourceImage), old(config), load, p, encodeText, zip, GenerationFallback)
                && !isGenerating && error == ErrorOf(r) && downloads == old(downloads) + DownloadsOf(ArchiveName, r)
                && unchanged(`activeTab, `sourceImage, `config, `croppedArea, `zoom,
                             `customText, `customTextColor, `emojiOpen, `previewUrls)
    {
      r := Failure("");
      if config.ImageMode? && sourceImage.None? {
        return;
      }
      isGenerating := true;
      error := None;
      var outcome := ProduceArchive(sourceImage, config, load, p, encodeText, zip, GenerationFallback);
      error := ErrorOf(outcome);
      downloads := downloads + DownloadsOf(ArchiveName, outcome);
      isGenerating := false;
      r := outcome;
    }
  }
}
