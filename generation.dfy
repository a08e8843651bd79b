/**
 * The generation pipeline both generate handlers share: render the icon
 * set, pack it with the snippet, compress it, and turn what is thrown into
 * the message shown.
 */
module Generation {
  import opened Wrappers
  import opened Types
  import opened Tables
  import opened Compositor
  import opened Generator
  import opened Snippet
  import opened Archive

  /** A file handed to the browser to download. */
  datatype Download = Download(name: string, archive: Bytes)

  /** The message shown for a failed icon set: the thrown error's message, or the fallback when what is thrown is not an `Error`. */
  function FailureText(e: RenderError, fallback: string): (m: string)
    ensures Message(e).Some? ==> m == Message(e).value
    ensures Message(e).None? ==> m == fallback
  {
    Message(e).GetOr(fallback)
  }

  /** A complete icon set: the six sizes in table order, each a render of the configuration. */
  ghost predicate IconSet(icons: seq<Icon>, config: Config, image: Option<Dims>, p: Platform) {
    && |icons| == |FaviconSizes|
    && forall i :: 0 <= i < |icons| ==> icons[i].size == FaviconSizes[i] && Rendered(icons[i], config, image, p)
  }

  /** The archive of an icon set: its entries with the encoded snippet, compressed. */
  ghost predicate Packed(icons: seq<Icon>, encodeText: string -> Bytes, zip: Files -> Result<Bytes, string>, archive: Bytes) {
    zip(ArchiveOf(icons, encodeText(FullSnippet()))) == Success(archive)
  }

  /** A generation's archive: that of a complete icon set. */
  ghost predicate Archived(archive: Bytes, source: Option<SourceImage>, config: Config,
                           load: SourceImage -> Option<Dims>, p: Platform,
                           encodeText: string -> Bytes, zip: Files -> Result<Bytes, string>) {
    exists icons :: IconSet(icons, config, ImageFor(source, config, load), p) && Packed(icons, encodeText, zip, archive)
  }

  /** Rendering can start: custom mode, or image mode with a decoded image. */
  predicate Renders(source: Option<SourceImage>, config: Config, load: SourceImage -> Option<Dims>) {
    config.CustomMode? || ImageFor(source, config, load).Some?
  }

  /**
   * A packaging failure of a complete icon set: the compressor rejects its
   * entries, and the message wraps the compressor's.
   */
  ghost predicate PackingFailed(message: string, source: Option<SourceImage>, config: Config,
                                load: SourceImage -> Option<Dims>, p: Platform,
                                encodeText: string -> Bytes, zip: Files -> Result<Bytes, string>) {
    exists icons, cause ::
      && IconSet(icons, config, ImageFor(source, config, load), p)
      && zip(ArchiveOf(icons, encodeText(FullSnippet()))) == Failure(cause)
      && message == ArchiveMessage(ZipFailed(cause))
  }

  /**
   * What a generation ends in. An archive is that of a complete icon set. The
   * fallback message is shown when the image does not decode, and the context
   * message when there is no canvas context. Once rendering can start, a
   * failure is the encoder's message or a packaging failure, and only the
   * latter when no encode can fail. An archive is produced whenever
   * rendering, encoding and compressing cannot fail.
   */
  ghost predicate Outcome(r: Result<Bytes, string>, source: Option<SourceImage>, config: Config,
                          load: SourceImage -> Option<Dims>, p: Platform,
                          encodeText: string -> Bytes, zip: Files -> Result<Bytes, string>, fallback: string)
    requires !(config.ImageMode? && source.None?)
  {
    && (r.Success? ==> Archived(r.value, source, config, load, p, encodeText, zip))
    && (config.ImageMode? && load(source.value).None? ==> r == Failure(FailureText(ImageLoadFailed, fallback)))
    && (Renders(source, config, load) && !p.contextAvailable ==>
          r == Failure(FailureText(ContextUnavailable, fallback)))
    && (Renders(source, config, load) && p.contextAvailable && r.Failure? ==>
          || r.error == FailureText(BlobFailed, fallback)
          || PackingFailed(r.error, source, config, load, p, encodeText, zip))
    && (Renders(source, config, load) && p.contextAvailable
        && (forall n, log :: p.toBlob(n, log).Some?) && r.Failure? ==>
          PackingFailed(r.error, source, config, load, p, encodeText, zip))
    && (Renders(source, config, load) && p.contextAvailable
        && (forall n, log :: p.toBlob(n, log).Some?) && (forall files :: zip(files).Success?)
        ==> r.Success?)
  }

  /** A failed icon set, reported as its render error's message, ends the generation as promised. */
  lemma RenderFailureOutcome(e: RenderError, source: Option<SourceImage>, config: Config,
                             load: SourceImage -> Option<Dims>, p: Platform,
                             encodeText: string -> Bytes, zip: Files -> Result<Bytes, string>, fallback: string)
    requires !(config.ImageMode? && source.None?)
    requires config.ImageMode? && load(source.value).None? ==> e == ImageLoadFailed
    requires Renders(source, config, load) && !p.contextAvailable ==> e == ContextUnavailable
    requires Renders(source, config, load) && p.contextAvailable ==>
               e == BlobFailed && !(forall n, log :: p.toBlob(n, log).Some?)
    ensures Outcome(Failure(FailureText(e, fallback)), source, config, load, p, encodeText, zip, fallback)
  {
  }

  /** A complete icon set the compressor rejects ends the generation as promised. */
  lemma PackFailureOutcome(icons: seq<Icon>, cause: string, source: Option<SourceImage>, config: Config,
                           load: SourceImage -> Option<Dims>, p: Platform,
                           encodeText: string -> Bytes, zip: Files -> Result<Bytes, string>, fallback: string)
    requires !(config.ImageMode? && source.None?)
    requires Renders(source, config, load) && p.contextAvailable
    requires IconSet(icons, config, ImageFor(source, config, load), p)
    requires zip(ArchiveOf(icons, encodeText(FullSnippet()))) == Failure(cause)
    ensures Outcome(Failure(ArchiveMessage(ZipFailed(cause))), source, config, load, p, encodeText, zip, fallback)
  {
    assert PackingFailed(ArchiveMessage(ZipFailed(cause)), source, config, load, p, encodeText, zip);
  }

  /** A complete icon set the compressor accepts ends the generation as promised. */
  lemma SuccessOutcome(icons: seq<Icon>, archive: Bytes, source: Option<SourceImage>, config: Config,
                       load: SourceImage -> Option<Dims>, p: Platform,
                       encodeText: string -> Bytes, zip: Files -> Result<Bytes, string>, fallback: string)
    requires !(config.ImageMode? && source.None?)
    requires Renders(source, config, load) && p.contextAvailable
    requires IconSet(icons, config, ImageFor(source, config, load), p)
    requires Packed(icons, encodeText, zip, archive)
    ensures Outcome(Success(archive), source, config, load, p, encodeText, zip, fallback)
  {
  }

  /**
   * The body of both generate handlers: render the icon set, pack it with the
   * snippet, and compress it; a render that cannot fail and a compressor that
   * cannot fail give an archive.
   */
  method ProduceArchive(source: Option<SourceImage>, config: Config, load: SourceImage -> Option<Dims>,
                        p: Platform, encodeText: string -> Bytes, zip: Files -> Result<Bytes, string>,
                        fallback: string)
    returns (r: Result<Bytes, string>)
    requires !(config.ImageMode? && source.None?)
    ensures Outcome(r, source, config, load, p, encodeText, zip, fallback)
  {
    var icons := GenerateIcons(source, config, load, p);
    if icons.Failure? {
      RenderFailureOutcome(icons.error, source, config, load, p, encodeText, zip, fallback);
      r := Failure(FailureText(icons.error, fallback));
      return;
    }
    var packed, files := BuildZip(icons.value, encodeText, zip);
    assert IconSet(icons.value, config, ImageFor(source, config, load), p);
    if packed.Failure? {
      PackFailureOutcome(icons.value, packed.error.cause, source, config, load, p, encodeText, zip, fallback);
      r := Failure(ArchiveMessage(packed.error));
      return;
    }
    SuccessOutcome(icons.value, packed.value, source, config, load, p, encodeText, zip, fallback);
    r := Success(packed.value);
  }

  /** The downloads a generation starts: its archive under the given name, or none. */
  function DownloadsOf(name: string, r: Result<Bytes, string>): (d: seq<Download>)
    ensures r.Success? ==> d == [Download(name, r.value)]
    ensures r.Failure? ==> d == []
  {
    if r.Success? then [Download(name, r.value)] else []
  }
}
