/**
 * The glyph auto-fit: a binary search for the largest integer font size whose
 * measured box fits 85% of the canvas side, starting at 8 and bounded by 1.5
 * times the side. Text measurement is a capability passed in as a function.
 */
module GlyphFit {
  import opened Wrappers

  /** A measured text box. */
  datatype Box = Box(width: real, height: real)

  /** What the platform's text measurement reports: a width and, when available, the ascent and descent. */
  datatype TextMetrics = TextMetrics(width: real, ascent: Option<real>, descent: Option<real>)

  const MinFont: int := 8

  /** The box the glyph must fit: 85% of the side. */
  function MaxBox(side: int): real { side as real * 0.85 }

  /** The search's initial upper bound: 1.5 times the side. */
  function MaxFont(side: int): real { side as real * 1.5 }

  /**
   * The measure closure: width from the metrics, height as ascent plus
   * descent, falling back to 0.8 and 0.2 of the font size when absent.
   */
  function MeasureBox(m: TextMetrics, fontSize: int): (b: Box)
    ensures b.width == m.width
    ensures m.ascent.None? && m.descent.None? ==> b.height == fontSize as real
  {
    Box(m.width, m.ascent.GetOr(fontSize as real * 0.8) + m.descent.GetOr(fontSize as real * 0.2))
  }

  /** Font size f fits the side when both its width and its height are within the box. */
  predicate Fits(measure: int -> Box, side: int, f: int) {
    measure(f).width <= MaxBox(side) && measure(f).height <= MaxBox(side)
  }

  /** The measure never shrinks as the font grows, in either dimension. */
  ghost predicate Monotone(measure: int -> Box) {
    forall a, b :: a <= b ==> measure(a).width <= measure(b).width && measure(a).height <= measure(b).height
  }

  /**
   * What the search promises: at least 8; a result above 8 is in range and
   * fits; and, for a monotone measure, no larger size in range fits.
   */
  ghost predicate FitSpec(measure: int -> Box, side: int, best: int) {
    && MinFont <= best
    && (best > MinFont ==> best as real <= MaxFont(side) && Fits(measure, side, best))
    && (Monotone(measure) ==> forall f :: best < f && f as real <= MaxFont(side) ==> !Fits(measure, side, f))
  }

  /** The binary search over [8, 1.5 * side], falling back to 8 when nothing fits. */
  method FitFontSize(measure: int -> Box, side: int) returns (best: int)
    ensures FitSpec(measure, side, best)
  {
    var lo: int := MinFont;
    var hi: real := MaxFont(side);
    best := MinFont;
    while lo as real <= hi
      invariant MinFont <= best
      invariant (lo == MinFont && best == MinFont) || (lo == best + 1 && Fits(measure, side, best))
      invariant best as real <= MaxFont(side) || best == MinFont
      invariant hi <= MaxFont(side)
      invariant Monotone(measure) ==> forall f :: hi < f as real && f as real <= MaxFont(side) ==> !Fits(measure, side, f)
      decreases (hi - lo as real).Floor
    {
      var mid := ((lo as real + hi) / 2.0).Floor;
      if Fits(measure, side, mid) {
        best := mid;
        lo := mid + 1;
      } else {
        hi := (mid - 1) as real;
      }
    }
  }

  /** Under a monotone measure, two results of the search agree: the result is the largest fitting size. */
  lemma FitIsUnique(measure: int -> Box, side: int, a: int, b: int)
    requires Monotone(measure)
    requires FitSpec(measure, side, a) && FitSpec(measure, side, b)
    ensures a == b
  {
  }

  /** Under a monotone measure, when the result is 8 and 8 does not fit, no size in range fits. */
  lemma FallbackMeansNothingFits(measure: int -> Box, side: int, best: int, f: int)
    requires Monotone(measure) && FitSpec(measure, side, best)
    requires best == MinFont && !Fits(measure, side, MinFont)
    requires MinFont <= f && f as real <= MaxFont(side)
    ensures !Fits(measure, side, f)
  {
  }

  /** A larger canvas never gets a smaller font, for a fixed text and a monotone measure. */
  lemma FitMonotoneInSide(measure: int -> Box, sideA: int, sideB: int, a: int, b: int)
    requires Monotone(measure) && 0 <= sideA <= sideB
    requires FitSpec(measure, sideA, a) && FitSpec(measure, sideB, b)
    ensures a <= b
  {
    assert a > MinFont ==> Fits(measure, sideB, a) && a as real <= MaxFont(sideB);
  }

  /** The synthetic linear measure: a glyph of size f is f by f. */
  function Linear(f: int): Box { Box(f as real, f as real) }

  lemma LinearIsMonotone()
    ensures Monotone(Linear)
  {
  }

  /** With the linear measure the search returns the floor of 85% of the side. */
  lemma LinearFit(side: int, best: int)
    requires side >= 10
    requires FitSpec(Linear, side, best)
    ensures best == MaxBox(side).Floor
  {
    LinearIsMonotone();
    var f := MaxBox(side).Floor;
    assert MinFont <= f;
    assert Fits(Linear, side, f);
    assert f as real <= MaxFont(side);
  }

  /** The worked scenario: a 32-pixel canvas and the linear measure give 27 (the box is 27.2). */
  lemma LinearFitExample(best: int)
    requires FitSpec(Linear, 32, best)
    ensures best == 27
  {
    LinearFit(32, best);
    assert MaxBox(32) == 27.2;
  }
}
