/**
 * The generator hook: a status machine over the uploaded image, the panel
 * configuration, the status and the error, driven by the upload, the
 * configuration updates, the generate request and the reset.
 */
module GeneratorHook {
  import opened Wrappers
  import opened Types
  import opened Tables
  import opened Canvas
  import opened Compositor
  import opened CropRect
  import opened Generator
  import opened Validation
  import opened Archive
  import opened Generation

  /** The configuration the hook starts from and resets to. */
  const DefaultConfig: PanelConfig := PanelConfig(10, 0, "#ffffff")

  const UploadFirst: string := "Please upload " + "an image first"
  const InvalidImage: string := "Invalid image " + "file. Please " + "try a different " + "image."
  const HookFallback: string := "Failed to " + "generate " + "favicons. " + "Please try " + "again."
  const HookArchiveName: string := "favicon-forge" + "-assets.zip"

  /** The fixed text around the probe's reason in the upload error. */
  const BrowserPrefix: string := "Your browser " + "is not " + "supported: "
  const BrowserSuffix: string := ". Please " + "update to a " + "modern browser."
  /** The fixed text before the probe's reason in the generate error. */
  const CannotPrefix: string := "Cannot " + "generate " + "favicons: "

  /** The upload error of an unsupported browser: the reason between the fixed prefix and suffix. */
  function UnsupportedBrowser(reason: string): (m: string)
    ensures |m| == |BrowserPrefix| + |reason| + |BrowserSuffix|
    ensures m[..|BrowserPrefix|] == BrowserPrefix
    ensures m[|BrowserPrefix|..|BrowserPrefix| + |reason|] == reason
    ensures m[|BrowserPrefix| + |reason|..] == BrowserSuffix
  {
    BrowserPrefix + reason + BrowserSuffix
  }

  /** The generate error of an unsupported browser: the fixed prefix, then the reason. */
  function CannotGenerate(reason: string): (m: string)
    ensures |m| == |CannotPrefix| + |reason|
    ensures m[..|CannotPrefix|] == CannotPrefix
    ensures m[|CannotPrefix|..] == reason
  {
    CannotPrefix + reason
  }

  /** The reason can be read back from either message, so equal messages come from equal reasons. */
  lemma MessagesKeepReason(a: string, b: string)
    ensures UnsupportedBrowser(a) == UnsupportedBrowser(b) ==> a == b
    ensures CannotGenerate(a) == CannotGenerate(b) ==> a == b
  {
    var ua, ub := UnsupportedBrowser(a), UnsupportedBrowser(b);
    assert ua == ub ==> |a| == |b| && ua[|BrowserPrefix|..|BrowserPrefix| + |a|] == ub[|BrowserPrefix|..|BrowserPrefix| + |b|];
    var ca, cb := CannotGenerate(a), CannotGenerate(b);
    assert ca == cb ==> ca[|CannotPrefix|..] == cb[|CannotPrefix|..];
  }

  /* ---------- What the hook hands to the generator ---------- */

  /**
   * As written: a panel configuration has no mode, so the generator, which
   * tests for image mode, takes its custom branch, with no text.
   */
  function AsWrittenGeneratorConfig(c: PanelConfig): Config {
    CustomMode(c.radiusPercent, c.backgroundColor, "", "")
  }

  /** As intended: the uploaded image, cropped to its centred square. */
  function IntendedGeneratorConfig(c: PanelConfig): Config {
    ImageMode(c.radiusPercent, c.backgroundColor, None)
  }

  /**
   * As written, the image is never decoded and every icon is the encoding of
   * the clip and the background alone: the upload does not reach the icons.
   */
  lemma AsWrittenIconsAreBlank(c: PanelConfig, source: Option<SourceImage>, load: SourceImage -> Option<Dims>,
                               p: Platform, icons: seq<Icon>)
    requires IconSet(icons, AsWrittenGeneratorConfig(c), ImageFor(source, AsWrittenGeneratorConfig(c), load), p)
    ensures ImageFor(source, AsWrittenGeneratorConfig(c), load).None?
    ensures forall i :: 0 <= i < |icons| ==>
              p.toBlob(icons[i].size, ClipOpen(icons[i].size, c.radiusPercent) + [Background(c.backgroundColor, icons[i].size)]
                                      + ClipClose(c.radiusPercent)) == Some(icons[i].bytes)
  {
    var g := AsWrittenGeneratorConfig(c);
    forall i | 0 <= i < |icons|
      ensures p.toBlob(icons[i].size, ClipOpen(icons[i].size, c.radiusPercent) + [Background(c.backgroundColor, icons[i].size)]
                                      + ClipClose(c.radiusPercent)) == Some(icons[i].bytes)
    {
      assert Rendered(icons[i], g, None, p);
      var content :| && ContentSpec(icons[i].size, g, None, p.measureText, content)
                     && p.toBlob(icons[i].size, Framed(icons[i].size, g.radiusPercent, g.backgroundColor, content)) == Some(icons[i].bytes);
      EmptyTextDrawsNothing(icons[i].size, g, None, p.measureText, content);
    }
  }

  /**
   * As intended, every icon is the encoding of the framed centred square of
   * the decoded image.
   */
  lemma IntendedIconsShowImage(c: PanelConfig, source: SourceImage, load: SourceImage -> Option<Dims>,
                               p: Platform, icons: seq<Icon>, d: Dims)
    requires load(source) == Some(d)
    requires IconSet(icons, IntendedGeneratorConfig(c), ImageFor(Some(source), IntendedGeneratorConfig(c), load), p)
    ensures ImageFor(Some(source), IntendedGeneratorConfig(c), load) == Some(d)
    ensures forall i :: 0 <= i < |icons| ==>
              p.toBlob(icons[i].size, Framed(icons[i].size, c.radiusPercent, c.backgroundColor,
                                             ImageContent(icons[i].size, DefaultCrop(d.width, d.height), d))) == Some(icons[i].bytes)
  {
    var g := IntendedGeneratorConfig(c);
    forall i | 0 <= i < |icons|
      ensures p.toBlob(icons[i].size, Framed(icons[i].size, c.radiusPercent, c.backgroundColor,
                                             ImageContent(icons[i].size, DefaultCrop(d.width, d.height), d))) == Some(icons[i].bytes)
    {
      assert Rendered(icons[i], g, Some(d), p);
      var content :| && ContentSpec(icons[i].size, g, Some(d), p.measureText, content)
                     && p.toBlob(icons[i].size, Framed(icons[i].size, g.radiusPercent, g.backgroundColor, content)) == Some(icons[i].bytes);
    }
  }

  /** Six frame-only icons: each the encoding of the clip and the background alone. */
  ghost predicate BlankIcons(icons: seq<Icon>, c: PanelConfig, p: Platform) {
    && |icons| == |FaviconSizes|
    && forall i :: 0 <= i < |icons| ==>
         && icons[i].size == FaviconSizes[i] && icons[i].filename == Filename(icons[i].size)
         && p.toBlob(icons[i].size, ClipOpen(icons[i].size, c.radiusPercent) + [Background(c.backgroundColor, icons[i].size)]
                                    + ClipClose(c.radiusPercent)) == Some(icons[i].bytes)
  }

  /** Six icons, each the encoding of the framed centred square of the image d. */
  ghost predicate ImageIcons(icons: seq<Icon>, c: PanelConfig, d: Dims, p: Platform) {
    && |icons| == |FaviconSizes|
    && forall i :: 0 <= i < |icons| ==>
         && icons[i].size == FaviconSizes[i] && icons[i].filename == Filename(icons[i].size)
         && p.toBlob(icons[i].size, Framed(icons[i].size, c.radiusPercent, c.backgroundColor,
                                           ImageContent(icons[i].size, DefaultCrop(d.width, d.height), d))) == Some(icons[i].bytes)
  }

  /** An archive of six frame-only icons. */
  ghost predicate BlankArchive(archive: Bytes, c: PanelConfig, p: Platform,
                               encodeText: string -> Bytes, zip: Files -> Result<Bytes, string>) {
    exists icons: seq<Icon> :: BlankIcons(icons, c, p) && Packed(icons, encodeText, zip, archive)
  }

  /** An archive of six icons showing the image d. */
  ghost predicate ImageArchive(archive: Bytes, c: PanelConfig, d: Dims, p: Platform,
                               encodeText: string -> Bytes, zip: Files -> Result<Bytes, string>) {
    exists icons: seq<Icon> :: ImageIcons(icons, c, d, p) && Packed(icons, encodeText, zip, archive)
  }

  /** As written, whatever was uploaded, a generated archive holds only blank icons. */
  lemma AsWrittenArchiveIsBlank(archive: Bytes, source: Option<SourceImage>, c: PanelConfig,
                                load: SourceImage -> Option<Dims>, p: Platform,
                                encodeText: string -> Bytes, zip: Files -> Result<Bytes, string>)
    requires Archived(archive, source, AsWrittenGeneratorConfig(c), load, p, encodeText, zip)
    ensures BlankArchive(archive, c, p, encodeText, zip)
  {
    var g := AsWrittenGeneratorConfig(c);
    var icons :| IconSet(icons, g, ImageFor(source, g, load), p) && Packed(icons, encodeText, zip, archive);
    AsWrittenIconsAreBlank(c, source, load, p, icons);
    assert BlankIcons(icons, c, p);
  }

  /** As intended, a generated archive holds the framed centred square of the decoded upload. */
  lemma IntendedArchiveShowsImage(archive: Bytes, source: SourceImage, c: PanelConfig, d: Dims,
                                  load: SourceImage -> Option<Dims>, p: Platform,
                                  encodeText: string -> Bytes, zip: Files -> Result<Bytes, string>)
    requires load(source) == Some(d)
    requires Archived(archive, Some(source), IntendedGeneratorConfig(c), load, p, encodeText, zip)
    ensures ImageArchive(archive, c, d, p, encodeText, zip)
  {
    var g := IntendedGeneratorConfig(c);
    var icons :| IconSet(icons, g, ImageFor(Some(source), g, load), p) && Packed(icons, encodeText, zip, archive);
    IntendedIconsShowImage(c, source, load, p, icons, d);
    assert ImageIcons(icons, c, d, p);
  }

  /* ---------- The hook's state ---------- */

  /** The generate request's error: its failure's message, as a generation error, or none. */
  function GenerationError(r: Result<Bytes, string>): Option<ErrorMessage> {
    if r.Failure? then Some(ErrorMessage(Generation, r.error)) else None
  }

  /** Every field of the hook at once. */
  datatype HookState = HookState(sourceImage: Option<SourceImage>, config: PanelConfig, status: Status,
                                 error: Option<ErrorMessage>, downloads: seq<Download>)

  class Hook {
    /** The browser probe's reason, when the browser lacks an API the generator needs. */
    const browserError: Option<string>
    var sourceImage: Option<SourceImage>
    var config: PanelConfig
    var status: Status
    var error: Option<ErrorMessage>
    var downloads: seq<Download>
    /** Every status taken so far, the current one last. */
    ghost var statusTrace: seq<Status>

    function State(): HookState
      reads this
    {
      HookState(sourceImage, config, status, error, downloads)
    }

    /** The trace ends in the current status and never holds the error status. */
    ghost predicate Valid()
      reads this
    {
      && |statusTrace| >= 1
      && statusTrace[|statusTrace| - 1] == status
      && Error !in statusTrace
    }

    /** The image is uploaded and nothing is being generated. */
    predicate IsReady()
      reads this
    {
      status == Ready && sourceImage.Some?
    }

    predicate IsGenerating()
      reads this
    {
      status == Generating
    }

    predicate HasError()
      reads this
    {
      error.Some?
    }

    constructor(browserError: Option<string>)
      ensures Valid()
      ensures this.browserError == browserError
      ensures State() == HookState(None, DefaultConfig, Idle, None, [])
      ensures statusTrace == [Idle]
    {
      this.browserError := browserError;
      sourceImage := None;
      config := DefaultConfig;
      status := Idle;
      error := None;
      downloads := [];
      statusTrace := [Idle];
    }

    method ClearError()
      modifies this
      ensures State() == old(State()).(error := None)
      ensures statusTrace == old(statusTrace)
    {
      error := None;
    }

    /**
     * An upload: the error is cleared; an unsupported browser, a file that
     * fails validation and an image that does not decode each set a
     * validation error and keep the source; a decoded image becomes the
     * source and the hook is ready.
     */
    method HandleFileUpload(file: FileInfo, load: SourceImage -> Option<Dims>)
      modifies this
      requires Valid()
      ensures Valid()
      ensures browserError.Some? ==>
                && State() == old(State()).(error := Some(ErrorMessage(Validation, UnsupportedBrowser(browserError.value))))
                && statusTrace == old(statusTrace)
      ensures browserError.None? && ValidateImageFile(file).Some? ==>
                && State() == old(State()).(error := Some(ErrorMessage(Validation, ValidateImageFile(file).value)))
                && statusTrace == old(statusTrace)
      ensures browserError.None? && ValidateImageFile(file).None? ==>
                var source := SourceImage(file, GetImageType(file.mime).value);
                if load(source).None? then
                  && State() == old(State()).(error := Some(ErrorMessage(Validation, InvalidImage)))
                  && statusTrace == old(statusTrace)
                else
                  && State() == old(State()).(sourceImage := Some(source), status := Ready, error := None)
                  && statusTrace == old(statusTrace) + [Ready]
                  && IsReady()
    {
      ClearError();
      if browserError.Some? {
        error := Some(ErrorMessage(Validation, UnsupportedBrowser(browserError.value)));
        return;
      }
      var validationError := ValidateImageFile(file);
      if validationError.Some? {
        error := Some(ErrorMessage(Validation, validationError.value));
        return;
      }
      ValidatedFileHasKind(file);
      var kind := GetImageType(file.mime);
      var source := SourceImage(file, kind.value);
      if load(source).None? {
        error := Some(ErrorMessage(Validation, InvalidImage));
        return;
      }
      sourceImage := Some(source);
      status := Ready;
      statusTrace := statusTrace + [Ready];
    }

    /** A configuration update: the supplied fields replace the old ones. */
    method UpdateConfig(u: PanelUpdate)
      modifies this
      ensures State() == old(State()).(config := Merge(old(config), u))
      ensures statusTrace == old(statusTrace)
    {
      config := Merge(config, u);
    }

    /**
     * The generate request as written: the panel configuration, which has no
     * mode, is what the generator gets. Without an image, a validation error;
     * on an unsupported browser, a generation error; neither changes the
     * status. Otherwise the status goes to generating and back to ready
     * whatever the outcome r, and any archive produced holds blank icons.
     */
    method GenerateZip(load: SourceImage -> Option<Dims>, p: Platform,
                       encodeText: string -> Bytes, zip: Files -> Result<Bytes, string>)
      returns (ghost r: Result<Bytes, string>)
      modifies this
      requires Valid()
      ensures Valid()
      ensures old(sourceImage).None? ==>
                && State() == old(State()).(error := Some(ErrorMessage(Validation, UploadFirst)))
                && statusTrace == old(statusTrace)
      ensures old(sourceImage).Some? && browserError.Some? ==>
                && State() == old(State()).(error := Some(ErrorMessage(Generation, CannotGenerate(browserError.value))))
                && statusTrace == old(statusTrace)
      ensures old(sourceImage).Some? && browserError.None? ==>
                && Outcome(r, old(sourceImage), AsWrittenGeneratorConfig(old(config)), load, p, encodeText, zip, HookFallback)
                && (r.Success? ==> BlankArchive(r.value, old(config), p, encodeText, zip))
                && State() == old(State()).(status := Ready, error := GenerationError(r),
                                            downloads := old(downloads) + DownloadsOf(HookArchiveName, r))
                && statusTrace == old(statusTrace) + [Generating, Ready]
                && IsReady()
    {
      ghost var c := config;
      ghost var source := sourceImage;
      r := GenerateWith(AsWrittenGeneratorConfig(config), load, p, encodeText, zip);
      if source.Some? && browserError.None? && r.Success? {
        AsWrittenArchiveIsBlank(r.value, source, c, load, p, encodeText, zip);
      }
    }

    /**
     * The generate request as evidently intended: the generator gets the
     * uploaded image in image mode, cropped to its centred square, and any
     * archive produced shows that image.
     */
    method GenerateZipCorrected(load: SourceImage -> Option<Dims>, p: Platform,
                                encodeText: string -> Bytes, zip: Files -> Result<Bytes, string>)
      returns (ghost r: Result<Bytes, string>)
      modifies this
      requires Valid()
      ensures Valid()
      ensures old(sourceImage).None? ==>
                && State() == old(State()).(error := Some(ErrorMessage(Validation, UploadFirst)))
                && statusTrace == old(statusTrace)
      ensures old(sourceImage).Some? && browserError.Some? ==>
                && State() == old(State()).(error := Some(ErrorMessage(Generation, CannotGenerate(browserError.value))))
                && statusTrace == old(statusTrace)
      ensures old(sourceImage).Some? && browserError.None? ==>
                && Outcome(r, old(sourceImage), IntendedGeneratorConfig(old(config)), load, p, encodeText, zip, HookFallback)
                && (r.Success? ==> ImageArchive(r.value, old(config), load(old(sourceImage).value).value, p, encodeText, zip))
                && State() == old(State()).(status := Ready, error := GenerationError(r),
                                            downloads := old(downloads) + DownloadsOf(HookArchiveName, r))
                && statusTrace == old(statusTrace) + [Generating, Ready]
                && IsReady()
    {
      ghost var c := config;
      ghost var source := sourceImage;
      r := GenerateWith(IntendedGeneratorConfig(config), load, p, encodeText, zip);
      if source.Some? && browserError.None? && r.Success? {
        IntendedArchiveShowsImage(r.value, source.value, c, load(source.value).value, load, p, encodeText, zip);
      }
    }

    /**
     * The generate request with the generator configuration g: the two
     * guards, then the status through generating back to ready around the
     * pipeline, whose outcome is downloaded or shown as a generation error.
     */
    method GenerateWith(g: Config, load: SourceImage -> Option<Dims>, p: Platform,
                        encodeText: string -> Bytes, zip: Files -> Result<Bytes, string>)
      returns (ghost r: Result<Bytes, string>)
      modifies this
      requires Valid()
      ensures Valid()
      ensures old(sourceImage).None? ==>
                && State() == old(State()).(error := Some(ErrorMessage(Validation, UploadFirst)))
                && statusTrace == old(statusTrace)
      ensures old(sourceImage).Some? && browserError.Some? ==>
                && State() == old(State()).(error := Some(ErrorMessage(Generation, CannotGenerate(browserError.value))))
                && statusTrace == old(statusTrace)
      ensures old(sourceImage).Some? && browserError.None? ==>
                && Outcome(r, old(sourceImage), g, load, p, encodeText, zip, HookFallback)
                && State() == old(State()).(status := Ready, error := GenerationError(r),
                                            downloads := old(downloads) + DownloadsOf(HookArchiveName, r))
                && statusTrace == old(statusTrace) + [Generating, Ready]
                && IsReady()
    {
      r := Failure(HookFallback);
      if sourceImage.None? {
        error := Some(ErrorMessage(Validation, UploadFirst));
        return;
      }
      if browserError.Some? {
        error := Some(ErrorMessage(Generation, CannotGenerate(browserError.value)));
        return;
      }
      status := Generating;
      statusTrace := statusTrace + [Generating];
      ClearError();
      var outcome := ProduceArchive(sourceImage, g, load, p, encodeText, zip, HookFallback);
      error := GenerationError(outcome);
      downloads := downloads + DownloadsOf(HookArchiveName, outcome);
      status := Ready;
      statusTrace := statusTrace + [Ready];
      r := outcome;
    }

    /** The reset: no image, the default configuration, idle, no error. */
    method Reset()
      modifies this
      requires Valid()
      ensures Valid()
      ensures State() == HookState(None, DefaultConfig, Idle, None, old(downloads))
      ensures statusTrace == old(statusTrace) + [Idle]
      ensures !IsReady() && !IsGenerating() && !HasError()
    {
      sourceImage := None;
      config := DefaultConfig;
      status := Idle;
      statusTrace := statusTrace + [Idle];
      error := None;
    }
  }
}
