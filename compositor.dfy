/**
 * The content steps shared by the archive renderer and the live preview: the
 * cropped image drawn to cover the canvas, and the auto-fitted glyph string.
 */
module Compositor {
  import opened Wrappers
  import opened Types
  import opened CropRect
  import opened GlyphFit
  import opened Canvas

  /**
   * The browser capabilities the renderer uses, passed in: whether a 2D
   * context is available, text measurement, and the two encoders of a
   * finished canvas (the PNG blob, which may fail, and the data URL).
   */
  datatype Platform = Platform(
    contextAvailable: bool,
    measureText: (string, int) -> TextMetrics,
    toBlob: (int, seq<DrawCmd>) -> Option<Bytes>,
    toDataUrl: (int, seq<DrawCmd>) -> string)

  /** The measure closure for one text: its metrics at each font size, as a box. */
  function MeasureFor(measureText: (string, int) -> TextMetrics, text: string): int -> Box {
    f => MeasureBox(measureText(text, f), f)
  }

  /** The text colour, with an empty colour falling back to black. */
  function TextColorOr(textColor: string): (c: string)
    ensures c != ""
    ensures textColor != "" ==> c == textColor
  {
    if textColor == "" then "#000000" else textColor
  }

  /** The image content: the clamped crop drawn over the whole canvas. */
  function ImageContent(side: int, crop: Crop, d: Dims): (content: seq<DrawCmd>)
    ensures |content| == 1 && content[0].DrawImage? && InBounds(content[0].src, d.width, d.height)
  {
    [DrawImage(PixelRectOf(crop, d.width, d.height), side)]
  }

  /**
   * The glyph content: nothing for an empty text, otherwise one centred fill
   * of the text in the given colour at a font size the fit search allows.
   */
  ghost predicate GlyphContent(side: int, text: string, color: string, measure: int -> Box, content: seq<DrawCmd>) {
    if text == "" then content == []
    else && |content| == 1
         && content[0].FillText?
         && content[0] == FillText(text, content[0].fontSize, color, side as real / 2.0)
         && FitSpec(measure, side, content[0].fontSize)
  }

  lemma ContentPaints(side: int, text: string, color: string, measure: int -> Box, content: seq<DrawCmd>)
    requires GlyphContent(side, text, color, measure, content)
    ensures forall i :: 0 <= i < |content| ==> Paints(content[i])
  {
  }

  /** Fits the font to the canvas and fills the non-empty text at its centre. */
  method DrawGlyph(side: int, text: string, color: string, measure: int -> Box) returns (cmd: DrawCmd)
    requires text != ""
    ensures GlyphContent(side, text, color, measure, [cmd])
  {
    var best := FitFontSize(measure, side);
    cmd := FillText(text, best, color, side as real / 2.0);
  }
}
