/**
 * Crop normalisation: the default centred-square crop and the clamping of a
 * fractional crop to an integer source rectangle that is never empty and
 * never leaves the image.
 */
module CropRect {
  import opened Types

  /** JavaScript's `Math.round`: the nearest integer, halves rounded up. */
  function Round(x: real): int {
    (x + 0.5).Floor
  }

  /** Round returns the integer nearest to x, halves going up. */
  lemma RoundIsNearest(x: real)
    ensures x - 0.5 < Round(x) as real <= x + 0.5
  {
  }

  function Min(a: int, b: int): int { if a <= b then a else b }
  function Max(a: int, b: int): int { if a >= b then a else b }
  function MinReal(a: real, b: real): real { if a <= b then a else b }
  function MaxReal(a: real, b: real): real { if a >= b then a else b }

  /** A source rectangle in image pixels. */
  datatype PixelRect = PixelRect(sx: int, sy: int, sw: int, sh: int)

  /** The rectangle is non-empty and lies inside a w-by-h image. */
  predicate InBounds(r: PixelRect, w: int, h: int) {
    && 0 <= r.sx <= w - 1
    && 0 <= r.sy <= h - 1
    && 1 <= r.sw <= w - r.sx
    && 1 <= r.sh <= h - r.sy
  }

  /**
   * The generator's default crop: the centred square whose side is the
   * shorter image dimension, with its offsets floored at zero.
   */
  function DefaultCrop(w: Pixels, h: Pixels): Crop
  {
    var side := MinReal(w as real, h as real);
    Crop(CentredOffset(w, side), CentredOffset(h, side), Extent(w, side), Extent(h, side))
  }

  /** Along an axis of n pixels, the offset that centres a segment of length side, as a fraction of n. */
  function CentredOffset(n: Pixels, side: real): real
  {
    MaxReal(0.0, (n as real - side) / 2.0) / n as real
  }

  /** A length of side pixels as a fraction of n. */
  function Extent(n: Pixels, side: real): real
  {
    side / n as real
  }

  /** An origin and an extent along one axis, in pixels. */
  datatype Span = Span(origin: int, extent: int)

  /** The span is non-empty and lies inside an axis of n pixels. */
  predicate SpanFits(s: Span, n: int) {
    0 <= s.origin <= n - 1 && 1 <= s.extent <= n - s.origin
  }

  /**
   * The clamp of an already rounded span: the origin into the axis, then the
   * extent to at least one pixel and at most what is left after the clamped origin.
   */
  function ClampSpan(ro: int, re: int, n: Pixels): (s: Span)
    ensures SpanFits(s, n)
  {
    var o := Max(0, Min(ro, n - 1));
    Span(o, Max(1, Min(re, n - o)))
  }

  /** One axis of a fractional crop: offset and extent rounded against the axis length, then clamped. */
  function AxisSpan(offset: real, extent: real, n: Pixels): (s: Span)
    ensures SpanFits(s, n)
  {
    ClampSpan(Round(offset * n as real), Round(extent * n as real), n)
  }

  /** The source rectangle of a fractional crop: the two axes clamped independently. */
  function PixelRectOf(c: Crop, w: Pixels, h: Pixels): (r: PixelRect)
    ensures InBounds(r, w, h)
  {
    var cols := AxisSpan(c.x, c.width, w);
    var rows := AxisSpan(c.y, c.height, h);
    PixelRect(cols.origin, rows.origin, cols.extent, rows.extent)
  }

  /** The default crop is a centred square: its side in pixels is min(w, h) and its margins are equal. */
  lemma DefaultCropShape(w: Pixels, h: Pixels)
    ensures var c := DefaultCrop(w, h);
            && c.width * (w as real) == Min(w, h) as real
            && c.height * (h as real) == Min(w, h) as real
            && c.x + c.width + c.x == 1.0 && c.y + c.height + c.y == 1.0
            && 0.0 <= c.x && 0.0 <= c.y
  {
    var side := Min(w, h);
    assert MinReal(w as real, h as real) == side as real;
    AxisShape(w, side);
    AxisShape(h, side);
  }

  /** One axis of the default crop, as fractions: exact extent, equal margins. */
  lemma AxisShape(n: Pixels, side: int)
    requires 1 <= side <= n
    ensures Extent(n, side as real) * n as real == side as real
    ensures CentredOffset(n, side as real) + Extent(n, side as real) + CentredOffset(n, side as real) == 1.0
    ensures 0.0 <= CentredOffset(n, side as real)
  {
    ScaleBack(side, n);
    assert MaxReal(0.0, (n as real - side as real) / 2.0) == (n - side) as real / 2.0;
  }

  /** Clamping never distorts a rounded span that already fits the axis. */
  lemma ClampKeepsFittingSpan(ro: int, re: int, n: Pixels)
    requires SpanFits(Span(ro, re), n)
    ensures ClampSpan(ro, re, n) == Span(ro, re)
  {
  }

  lemma ScaleBack(side: int, n: Pixels)
    ensures (side as real / n as real) * n as real == side as real
  {
  }

  /** Along one axis, a centred segment of length side rounds to an origin that leaves room for it. */
  lemma CentredAxis(n: Pixels, side: int)
    requires 1 <= side <= n
    ensures var o := Round((n - side) as real / 2.0);
            && 0 <= o <= n - 1 && side <= n - o
            && -1 <= (n - o - side) - o <= 0
  {
    var o := Round((n - side) as real / 2.0);
    RoundIsNearest((n - side) as real / 2.0);
    assert 2 * o - 1 < n - side + 1 && n - side - 1 <= 2 * o;
  }

  /** The centring offset scales back to half the slack. */
  lemma OffsetScalesBack(n: Pixels, side: int)
    requires 1 <= side <= n
    ensures CentredOffset(n, side as real) * n as real == (n - side) as real / 2.0
  {
    ScaleBack(n - side, n);
    assert MaxReal(0.0, (n as real - side as real) / 2.0) == (n - side) as real / 2.0;
    assert ((n - side) as real / 2.0) / n as real == ((n - side) as real / n as real) / 2.0;
  }

  /** AxisSpan is the clamp of whatever the two roundings give. */
  lemma AxisSpanOfRounded(offset: real, extent: real, n: Pixels, ro: int, re: int)
    requires Round(offset * n as real) == ro && Round(extent * n as real) == re
    ensures AxisSpan(offset, extent, n) == ClampSpan(ro, re, n)
  {
  }

  lemma OffsetRounds(n: Pixels, side: int)
    requires 1 <= side <= n
    ensures Round(CentredOffset(n, side as real) * n as real) == Round((n - side) as real / 2.0)
  {
    OffsetScalesBack(n, side);
  }

  lemma ExtentRounds(n: Pixels, side: int)
    ensures Round(Extent(n, side as real) * n as real) == side
  {
    ScaleBack(side, n);
  }

  /** One axis of the default crop in pixels: the rounded origin is the centring offset and the extent is exact. */
  lemma DefaultAxis(n: Pixels, side: int)
    requires 1 <= side <= n
    ensures AxisSpan(CentredOffset(n, side as real), Extent(n, side as real), n)
            == Span(Round((n - side) as real / 2.0), side)
  {
    var o := Round((n - side) as real / 2.0);
    OffsetRounds(n, side);
    ExtentRounds(n, side);
    AxisSpanOfRounded(CentredOffset(n, side as real), Extent(n, side as real), n, o, side);
    CentredAxis(n, side);
    ClampKeepsFittingSpan(o, side, n);
  }

  /**
   * With no crop supplied the clamped rectangle is the centred square of side
   * min(w, h): the side is exact, and the right (lower) margin equals the left
   * (upper) one or is one pixel narrower.
   */
  lemma DefaultCropIsCentredSquare(w: Pixels, h: Pixels)
    ensures var r := PixelRectOf(DefaultCrop(w, h), w, h);
            && r.sw == Min(w, h) && r.sh == Min(w, h)
            && r.sx == Round((w - Min(w, h)) as real / 2.0)
            && r.sy == Round((h - Min(w, h)) as real / 2.0)
            && -1 <= (w - r.sx - r.sw) - r.sx <= 0
            && -1 <= (h - r.sy - r.sh) - r.sy <= 0
  {
    var side := Min(w, h);
    assert MinReal(w as real, h as real) == side as real;
    DefaultAxis(w, side);
    DefaultAxis(h, side);
    CentredAxis(w, side);
    CentredAxis(h, side);
  }

  /** The worked scenario: a 200x100 image with no crop. */
  lemma DefaultCropExample()
    ensures DefaultCrop(200, 100) == Crop(0.25, 0.0, 0.5, 1.0)
    ensures PixelRectOf(DefaultCrop(200, 100), 200, 100) == PixelRect(50, 0, 100, 100)
  {
    DefaultCropIsCentredSquare(200, 100);
  }

  /** Degenerate and out-of-range crops are clamped, not propagated. */
  lemma DegenerateCropExample()
    ensures PixelRectOf(Crop(1.5, 0.0, 0.0, 1.0), 200, 100) == PixelRect(199, 0, 1, 100)
  {
  }
}
