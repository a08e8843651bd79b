/**
 * The canvas as a log of draw commands, and the shape every per-size render
 * takes: an optional rounded clip, the background, the content, and the
 * restore that releases the clip.
 */
module Canvas {
  import opened CropRect

  datatype DrawCmd =
    | Save
    | ClipRoundRect(side: int, radius: int)   // begin a path, trace the rounded square, clip to it
    | Restore
    | FillRect(color: string, side: int)
    | ClearRect(side: int)
    | DrawImage(src: PixelRect, side: int)    // the source rectangle scaled to cover the side-by-side canvas
    | FillText(text: string, fontSize: int, color: string, center: real)

  /** Commands that paint, as opposed to those that save, clip or restore canvas state. */
  predicate Paints(c: DrawCmd) {
    c.FillRect? || c.ClearRect? || c.DrawImage? || c.FillText?
  }

  /** The corner radius: the radius percentage of the side, rounded. */
  function ClipRadius(side: int, radiusPercent: int): int {
    Round(side as real * (radiusPercent as real / 100.0))
  }

  /** What the clip step draws: a save and a rounded clip, only for a positive radius. */
  function ClipOpen(side: int, radiusPercent: int): seq<DrawCmd> {
    if radiusPercent > 0 then [Save, ClipRoundRect(side, ClipRadius(side, radiusPercent))] else []
  }

  /** What the release step draws: one restore, only for a positive radius. */
  function ClipClose(radiusPercent: int): seq<DrawCmd> {
    if radiusPercent > 0 then [Restore] else []
  }

  /** True when the background is cleared rather than filled: an empty colour or "transparent". */
  predicate ClearsBackground(backgroundColor: string) {
    backgroundColor == "" || backgroundColor == "transparent"
  }

  function Background(backgroundColor: string, side: int): (c: DrawCmd)
    ensures Paints(c)
  {
    if ClearsBackground(backgroundColor) then ClearRect(side) else FillRect(backgroundColor, side)
  }

  /** A whole render of one canvas around its content. */
  function Framed(side: int, radiusPercent: int, backgroundColor: string, content: seq<DrawCmd>): seq<DrawCmd> {
    ClipOpen(side, radiusPercent) + [Background(backgroundColor, side)] + content + ClipClose(radiusPercent)
  }

  /** The number of times command c occurs in a log. */
  function Count(log: seq<DrawCmd>, c: DrawCmd): nat {
    if log == [] then 0 else (if log[0] == c then 1 else 0) + Count(log[1..], c)
  }

  lemma {:induction false} CountAppend(a: seq<DrawCmd>, b: seq<DrawCmd>, c: DrawCmd)
    ensures Count(a + b, c) == Count(a, c) + Count(b, c)
  {
    if a == [] {
      assert a + b == b;
    } else {
      assert (a + b)[1..] == a[1..] + b;
      CountAppend(a[1..], b, c);
    }
  }

  lemma {:induction false} CountPainting(log: seq<DrawCmd>, c: DrawCmd)
    requires forall i :: 0 <= i < |log| ==> Paints(log[i])
    requires !Paints(c)
    ensures Count(log, c) == 0
  {
    if log != [] {
      CountPainting(log[1..], c);
    }
  }

  /**
   * Save and restore are balanced: the render saves exactly once and restores
   * exactly once when the radius is positive, and does neither otherwise.
   */
  lemma FramedBalanced(side: int, radiusPercent: int, backgroundColor: string, content: seq<DrawCmd>)
    requires forall i :: 0 <= i < |content| ==> Paints(content[i])
    ensures var log := Framed(side, radiusPercent, backgroundColor, content);
            && Count(log, Save) == (if radiusPercent > 0 then 1 else 0)
            && Count(log, Restore) == Count(log, Save)
  {
    var op, bg, cl := ClipOpen(side, radiusPercent), [Background(backgroundColor, side)], ClipClose(radiusPercent);
    CountAppend(op + bg + content, cl, Save);
    CountAppend(op + bg, content, Save);
    CountAppend(op, bg, Save);
    CountAppend(op + bg + content, cl, Restore);
    CountAppend(op + bg, content, Restore);
    CountAppend(op, bg, Restore);
    CountPainting(content, Save);
    CountPainting(content, Restore);
  }

  /**
   * The order of a render. With a positive radius it starts with save and the
   * rounded clip of the rounded radius and ends with the restore, so the
   * background and all content are drawn inside the clip; with none it is the
   * background followed by the content.
   */
  lemma FramedOrder(side: int, radiusPercent: int, backgroundColor: string, content: seq<DrawCmd>)
    ensures var log := Framed(side, radiusPercent, backgroundColor, content);
            var k := if radiusPercent > 0 then 2 else 0;
            && |log| == k + 1 + |content| + (if radiusPercent > 0 then 1 else 0)
            && (radiusPercent > 0 ==>
                 log[0] == Save && log[1] == ClipRoundRect(side, ClipRadius(side, radiusPercent)) && log[|log| - 1] == Restore)
            && log[k] == Background(backgroundColor, side)
            && (forall i :: 0 <= i < |content| ==> log[k + 1 + i] == content[i])
  {
  }

  /**
   * A render with no content on a cleared background paints exactly one
   * command, the clear of the whole canvas, so every pixel stays transparent.
   */
  lemma {:induction false} EmptyRenderOnlyClears(side: int, radiusPercent: int, backgroundColor: string, i: int)
    requires ClearsBackground(backgroundColor)
    requires 0 <= i < |Framed(side, radiusPercent, backgroundColor, [])|
    requires Paints(Framed(side, radiusPercent, backgroundColor, [])[i])
    ensures Framed(side, radiusPercent, backgroundColor, [])[i] == ClearRect(side)
  {
    FramedOrder(side, radiusPercent, backgroundColor, []);
  }

  /** The worked scenario: 50% at 32 pixels gives a radius of 16, the inscribed circle. */
  lemma ClipRadiusExample()
    ensures ClipRadius(32, 50) == 16
  {
  }
}
