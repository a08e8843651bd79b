/**
 * The archive renderer: one canvas per favicon size, drawn as the clip, the
 * background and the content, then encoded as a PNG; and the loop that
 * renders the six sizes in table order.
 */
module Generator {
  import opened Wrappers
  import opened Types
  import opened Tables
  import opened CropRect
  import opened GlyphFit
  import opened Canvas
  import opened Compositor

  /** Why a render is abandoned. */
  datatype RenderError =
    | ContextUnavailable   // the canvas gives no 2D context
    | NoSourceImage        // image mode was asked to render without an image
    | SourceMissing        // image mode was given no source to load
    | ImageLoadFailed      // the source did not decode
    | BlobFailed           // the canvas could not be encoded

  /**
   * The message of what is thrown, when it is an `Error` whose message the
   * renderer fixes; None for the failed image load (its rejection value is the
   * load event, not an `Error`) and for the dereference of a missing source
   * (a `TypeError` whose message belongs to the script engine).
   */
  function Message(e: RenderError): (m: Option<string>)
    ensures m.None? <==> e == ImageLoadFailed || e == SourceMissing
  {
    match e
    case ContextUnavailable => Some("Canvas " + "context " + "not " + "available")
    case NoSourceImage => Some("No source " + "image " + "provided")
    case SourceMissing => None
    case ImageLoadFailed => None
    case BlobFailed => Some("Failed to " + "generate " + "image blob")
  }

  /**
   * What may be drawn between the background and the restore: in image mode
   * the image, cropped by the configured or the default crop; in custom mode
   * the glyph content of the text in its colour, black when none is set.
   */
  ghost predicate ContentSpec(side: int, config: Config, image: Option<Dims>,
                              measureText: (string, int) -> TextMetrics, content: seq<DrawCmd>) {
    match config
    case ImageMode(_, _, crop) =>
      && image.Some?
      && content == ImageContent(side, crop.GetOr(DefaultCrop(image.value.width, image.value.height)), image.value)
    case CustomMode(_, _, text, textColor) =>
      GlyphContent(side, text, TextColorOr(textColor), MeasureFor(measureText, text), content)
  }

  /** The icon is the encoding of a render of its size, under the table's file name. */
  ghost predicate Rendered(icon: Icon, config: Config, image: Option<Dims>, p: Platform) {
    && icon.filename == Filename(icon.size)
    && exists content ::
         && ContentSpec(icon.size, config, image, p.measureText, content)
         && p.toBlob(icon.size, Framed(icon.size, config.radiusPercent, config.backgroundColor, content)) == Some(icon.bytes)
  }

  /** The clip step: a save and the rounded clip of the rounded radius, only for a positive radius. */
  method OpenClip(size: int, radiusPercent: int) returns (cmds: seq<DrawCmd>)
    ensures cmds == ClipOpen(size, radiusPercent)
    ensures radiusPercent > 0 <==> |cmds| == 2
  {
    cmds := [];
    if radiusPercent > 0 {
      var radius := Round(size as real * (radiusPercent as real / 100.0));
      cmds := [Save, ClipRoundRect(size, radius)];
    }
  }

  /** The background step: a fill in the colour, or a clear when the colour is empty or "transparent". */
  method PaintBackground(size: int, bg: string) returns (cmd: DrawCmd)
    ensures cmd == Background(bg, size)
    ensures cmd.ClearRect? <==> ClearsBackground(bg)
  {
    if bg != "" && bg != "transparent" {
      cmd := FillRect(bg, size);
    } else {
      cmd := ClearRect(size);
    }
  }

  /** The content step; None when image mode has no image to draw. */
  method DrawContent(image: Option<Dims>, size: FaviconSize, config: Config, p: Platform)
    returns (content: Option<seq<DrawCmd>>)
    ensures content.None? <==> config.ImageMode? && image.None?
    ensures content.Some? ==> ContentSpec(size, config, image, p.measureText, content.value)
  {
    if config.ImageMode? {
      if image.None? {
        return None;
      }
      var d := image.value;
      var crop := if config.crop.Some? then config.crop.value else DefaultCrop(d.width, d.height);
      content := Some(ImageContent(size, crop, d));
    } else if config.text != "" {
      var cmd := DrawGlyph(size, config.text, TextColorOr(config.textColor), MeasureFor(p.measureText, config.text));
      content := Some([cmd]);
    } else {
      content := Some([]);
    }
  }

  /**
   * Renders one size. Without a context nothing is drawn; image mode without
   * an image fails after the clip and the background (the clip is left open);
   * otherwise the log is a whole framed render and the icon is its encoding,
   * or the render fails when the encoder does.
   */
  method GenerateIcon(image: Option<Dims>, size: FaviconSize, config: Config, p: Platform)
    returns (r: Result<Icon, RenderError>, drawn: seq<DrawCmd>)
    ensures !p.contextAvailable ==> r == Failure(ContextUnavailable) && drawn == []
    ensures p.contextAvailable && config.ImageMode? && image.None? ==>
              && r == Failure(NoSourceImage)
              && drawn == ClipOpen(size, config.radiusPercent) + [Background(config.backgroundColor, size)]
    ensures p.contextAvailable && (config.CustomMode? || image.Some?) ==>
              && (exists content :: ContentSpec(size, config, image, p.measureText, content)
                                    && drawn == Framed(size, config.radiusPercent, config.backgroundColor, content))
              && (if p.toBlob(size, drawn).Some?
                  then r == Success(Icon(size, p.toBlob(size, drawn).value, Filename(size)))
                  else r == Failure(BlobFailed))
    ensures r.Success? ==> r.value.size == size && Rendered(r.value, config, image, p)
    ensures r.Failure? ==> r.error in {ContextUnavailable, NoSourceImage, BlobFailed}
  {
    if !p.contextAvailable {
      return Failure(ContextUnavailable), [];
    }
    var clip := OpenClip(size, config.radiusPercent);
    var background := PaintBackground(size, config.backgroundColor);
    drawn := clip + [background];
    var content := DrawContent(image, size, config, p);
    if content.None? {
      return Failure(NoSourceImage), drawn;
    }
    drawn := drawn + content.value;
    if config.radiusPercent > 0 {
      drawn := drawn + [Restore];
    }
    assert drawn == Framed(size, config.radiusPercent, config.backgroundColor, content.value);
    var blob := p.toBlob(size, drawn);
    if blob.None? {
      return Failure(BlobFailed), drawn;
    }
    r := Success(Icon(size, blob.value, Filename(size)));
  }

  /** The image the renders use: loaded in image mode, none in custom mode. */
  function ImageFor(source: Option<SourceImage>, config: Config, load: SourceImage -> Option<Dims>): Option<Dims> {
    if config.ImageMode? && source.Some? then load(source.value) else None
  }

  /**
   * Renders the six sizes in table order. Image mode first loads the source
   * (a missing source or a failed load fails the whole set); the first failed
   * render fails the whole set too.
   */
  method GenerateIcons(source: Option<SourceImage>, config: Config, load: SourceImage -> Option<Dims>, p: Platform)
    returns (r: Result<seq<Icon>, RenderError>)
    ensures config.ImageMode? && source.None? ==> r == Failure(SourceMissing)
    ensures config.ImageMode? && source.Some? && load(source.value).None? ==> r == Failure(ImageLoadFailed)
    ensures (config.CustomMode? || ImageFor(source, config, load).Some?) && !p.contextAvailable ==>
              r == Failure(ContextUnavailable)
    ensures ((config.CustomMode? || ImageFor(source, config, load).Some?) && p.contextAvailable
             && (forall n, log :: p.toBlob(n, log).Some?)) ==> r.Success?
    ensures r.Success? ==>
              && |r.value| == |FaviconSizes|
              && forall i :: 0 <= i < |r.value| ==>
                   r.value[i].size == FaviconSizes[i] && Rendered(r.value[i], config, ImageFor(source, config, load), p)
    ensures r.Failure? ==> r.error != NoSourceImage
    ensures r == Failure(SourceMissing) ==> config.ImageMode? && source.None?
    ensures r.Failure? && (config.CustomMode? || ImageFor(source, config, load).Some?) && p.contextAvailable ==>
              r.error == BlobFailed
  {
    var image: Option<Dims> := None;
    if config.ImageMode? {
      if source.None? {
        return Failure(SourceMissing);
      }
      image := load(source.value);
      if image.None? {
        return Failure(ImageLoadFailed);
      }
    }
    assert image == ImageFor(source, config, load);
    var icons: seq<Icon> := [];
    var i := 0;
    while i < |FaviconSizes|
      invariant 0 <= i <= |FaviconSizes|
      invariant |icons| == i
      invariant !p.contextAvailable ==> i == 0
      invariant forall j :: 0 <= j < i ==> icons[j].size == FaviconSizes[j] && Rendered(icons[j], config, image, p)
    {
      var res, drawn := GenerateIcon(image, FaviconSizes[i], config, p);
      if res.Failure? {
        return Failure(res.error);
      }
      icons := icons + [res.value];
      i := i + 1;
    }
    r := Success(icons);
  }

  /** Every paint in a content the renderer allows is a paint, never a save or restore. */
  lemma ContentSpecPaints(side: int, config: Config, image: Option<Dims>,
                          measureText: (string, int) -> TextMetrics, content: seq<DrawCmd>)
    requires ContentSpec(side, config, image, measureText, content)
    ensures forall i :: 0 <= i < |content| ==> Paints(content[i])
  {
    if config.CustomMode? {
      ContentPaints(side, config.text, TextColorOr(config.textColor), MeasureFor(measureText, config.text), content);
    }
  }

  /**
   * Every completed render saves at most once and restores exactly as often:
   * once each for a positive radius, never otherwise.
   */
  lemma RenderIsBalanced(side: int, config: Config, image: Option<Dims>,
                         measureText: (string, int) -> TextMetrics, content: seq<DrawCmd>)
    requires ContentSpec(side, config, image, measureText, content)
    ensures var log := Framed(side, config.radiusPercent, config.backgroundColor, content);
            && Count(log, Save) == (if config.radiusPercent > 0 then 1 else 0)
            && Count(log, Restore) == Count(log, Save)
  {
    ContentSpecPaints(side, config, image, measureText, content);
    FramedBalanced(side, config.radiusPercent, config.backgroundColor, content);
  }

  /**
   * An image-mode render draws exactly one image command whose source
   * rectangle lies in the image; with no crop configured that rectangle is
   * the centred square of side min(w, h).
   */
  lemma ImageRenderDrawsCroppedImage(side: int, config: Config, d: Dims,
                                     measureText: (string, int) -> TextMetrics, content: seq<DrawCmd>)
    requires config.ImageMode?
    requires ContentSpec(side, config, Some(d), measureText, content)
    ensures |content| == 1 && content[0].DrawImage? && content[0].side == side
    ensures InBounds(content[0].src, d.width, d.height)
    ensures config.crop.None? ==>
              && content[0].src.sw == Min(d.width, d.height)
              && content[0].src.sh == Min(d.width, d.height)
              && content[0].src.sx == Round((d.width - Min(d.width, d.height)) as real / 2.0)
              && content[0].src.sy == Round((d.height - Min(d.width, d.height)) as real / 2.0)
  {
    if config.crop.None? {
      DefaultCropIsCentredSquare(d.width, d.height);
    }
  }

  /**
   * A custom-mode render with an empty text paints the background alone:
   * the whole render is the clip, the background and the restore.
   */
  lemma EmptyTextDrawsNothing(side: int, config: Config, image: Option<Dims>,
                              measureText: (string, int) -> TextMetrics, content: seq<DrawCmd>)
    requires config.CustomMode? && config.text == ""
    requires ContentSpec(side, config, image, measureText, content)
    ensures content == []
    ensures Framed(side, config.radiusPercent, config.backgroundColor, content)
            == ClipOpen(side, config.radiusPercent) + [Background(config.backgroundColor, side)] + ClipClose(config.radiusPercent)
  {
  }

  /**
   * A custom-mode render with text draws it once, centred, at a font size of
   * at least 8 and at most 1.5 times the side (or the fallback 8).
   */
  lemma GlyphRenderFontInRange(side: int, config: Config, image: Option<Dims>,
                               measureText: (string, int) -> TextMetrics, content: seq<DrawCmd>)
    requires config.CustomMode? && config.text != ""
    requires ContentSpec(side, config, image, measureText, content)
    ensures |content| == 1 && content[0].FillText? && content[0].text == config.text
    ensures content[0].center == side as real / 2.0
    ensures MinFont <= content[0].fontSize
    ensures content[0].fontSize == MinFont || content[0].fontSize as real <= MaxFont(side)
  {
  }

  /**
   * The failed image-mode render: with a positive radius the clip has been
   * saved and is never restored before the error propagates.
   */
  lemma MissingImageLeavesClipOpen(side: int, config: Config)
    requires config.radiusPercent > 0
    ensures var log := ClipOpen(side, config.radiusPercent) + [Background(config.backgroundColor, side)];
            Count(log, Save) == 1 && Count(log, Restore) == 0
  {
    var bg := Background(config.backgroundColor, side);
    var clip := ClipRoundRect(side, ClipRadius(side, config.radiusPercent));
    assert ClipOpen(side, config.radiusPercent) + [bg] == [Save, clip, bg];
    assert Count([bg], Save) == 0 && Count([bg], Restore) == 0 by {
      assert [bg][1..] == [];
    }
    assert [clip, bg][1..] == [bg];
    assert [Save, clip, bg][1..] == [clip, bg];
  }
}
