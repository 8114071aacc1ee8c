/** The window-to-viewport mapping of ViewPort.py: normalized coordinates,
    -1 .. 1 on both axes, to canvas pixels inside a fixed border, with the
    y axis flipped because the canvas counts rows downwards. */
module Viewports {
  import opened LinAlg

  /** The canvas border around the drawing area, in pixels. */
  const Border: real := 10.0

  /** `viewport_transform` for a drawing area of the given size. */
  function ViewportTransform(width: real, height: real, p: Point2): Point2 {
    Point2((p.x + 1.0) / 2.0 * width + Border, (1.0 - (p.y + 1.0) / 2.0) * height + Border)
  }

  /** The normalized point a canvas pixel shows: the inverse mapping. */
  function WindowPoint(width: real, height: real, q: Point2): Point2
    requires width != 0.0 && height != 0.0
  {
    Point2((q.x - Border) * 2.0 / width - 1.0, 1.0 - (q.y - Border) * 2.0 / height)
  }

  /** The window's left edge lands on the border and its right edge one
      width further; its top edge lands on the border and its bottom edge
      one height further; its centre lands in the middle of the area. */
  lemma ViewportCorners(width: real, height: real)
    ensures ViewportTransform(width, height, Point2(-1.0, 1.0)) == Point2(Border, Border)
    ensures ViewportTransform(width, height, Point2(1.0, -1.0)) == Point2(width + Border, height + Border)
    ensures ViewportTransform(width, height, Point2(0.0, 0.0)) == Point2(width / 2.0 + Border, height / 2.0 + Border)
  {
  }

  /** For a drawing area of positive size, vx grows strictly with x and vy
      falls strictly as y grows. */
  lemma ViewportMonotone(width: real, height: real, p: Point2, q: Point2)
    requires width > 0.0 && height > 0.0
    ensures p.x < q.x <==> ViewportTransform(width, height, p).x < ViewportTransform(width, height, q).x
    ensures p.y < q.y <==> ViewportTransform(width, height, p).y > ViewportTransform(width, height, q).y
  {
    var vp, vq := ViewportTransform(width, height, p), ViewportTransform(width, height, q);
    assert vq.x - vp.x == (q.x - p.x) / 2.0 * width;
    assert vp.y - vq.y == (q.y - p.y) / 2.0 * height;
    PositiveScale(q.x - p.x, width);
    PositiveScale(q.y - p.y, height);
  }

  /** Scaling by a positive factor keeps the sign. */
  lemma PositiveScale(d: real, k: real)
    requires k > 0.0
    ensures d > 0.0 <==> d / 2.0 * k > 0.0
  {
    if d <= 0.0 {
      assert d / 2.0 * k <= 0.0 by {
        assert (-d) / 2.0 * k >= 0.0;
      }
    }
  }

  /** The two mappings undo each other. */
  lemma ViewportRoundTrip(width: real, height: real, p: Point2, q: Point2)
    requires width != 0.0 && height != 0.0
    ensures WindowPoint(width, height, ViewportTransform(width, height, p)) == p
    ensures ViewportTransform(width, height, WindowPoint(width, height, q)) == q
  {
    var v := ViewportTransform(width, height, p);
    assert (v.x - Border) * 2.0 == (p.x + 1.0) * width;
    assert (v.y - Border) * 2.0 == (1.0 - p.y) * height;
    var w := WindowPoint(width, height, q);
    assert (w.x + 1.0) / 2.0 * width == q.x - Border;
    assert (1.0 - (w.y + 1.0) / 2.0) * height == q.y - Border;
  }
}
