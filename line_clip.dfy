/** The three line clippers of the editor, as functions of the window and
    the two endpoints: Liang–Barsky, the single-pass outcode clipper the
    editor calls Cohen–Sutherland, and the iterative outcode clipper it calls
    Nicholl–Lee–Nicholl. */
module LineClip {
  import opened LinAlg
  import opened Wrappers
  import opened ClipGeometry

  // ============================================================ Liang–Barsky

  /** The four (p, q) pairs of the Liang–Barsky test, in the source's order
      left, right, bottom, top. */
  function LBTerms(w: Window, p1: Point2, p2: Point2): (ts: seq<(real, real)>)
    ensures |ts| == 4
  {
    var dx := p2.x - p1.x;
    var dy := p2.y - p1.y;
    [(-dx, p1.x - w.xMin), (dx, w.xMax - p1.x), (-dy, p1.y - w.yMin), (dy, w.yMax - p1.y)]
  }

  /** Parameter u passes the test p * u <= q. */
  predicate Passes(p: real, q: real, u: real) {
    p * u <= q
  }

  /** Parameter u passes every test of ts. */
  predicate Meets(ts: seq<(real, real)>, u: real)
    decreases |ts|
  {
    ts == [] || (Passes(ts[0].0, ts[0].1, u) && Meets(ts[1..], u))
  }

  /** The four tests together are exactly window membership of the point at u. */
  lemma MeetsIsInWindow(w: Window, p1: Point2, p2: Point2, u: real)
    ensures Meets(LBTerms(w, p1, p2), u) <==> InWindow(w, Lerp(p1, p2, u))
  {
    var ts := LBTerms(w, p1, p2);
    assert ts[0].0 * u == -(u * (p2.x - p1.x));
    assert ts[2].0 * u == -(u * (p2.y - p1.y));
    assert ts[1].0 * u == u * (p2.x - p1.x);
    assert ts[3].0 * u == u * (p2.y - p1.y);
    assert Meets(ts, u) == (Passes(ts[0].0, ts[0].1, u) && Meets(ts[1..], u));
    assert Meets(ts[1..], u) == (Passes(ts[1].0, ts[1].1, u) && Meets(ts[2..], u));
    assert Meets(ts[2..], u) == (Passes(ts[2].0, ts[2].1, u) && Meets(ts[3..], u));
    assert Meets(ts[3..], u) == Passes(ts[3].0, ts[3].1, u);
  }

  /** The loop of liang_barsky over the tests, from the interval [u1, u2]:
      None is the early return of a segment parallel to and outside a side. */
  function LBFold(ts: seq<(real, real)>, u1: real, u2: real): Option<(real, real)>
    decreases |ts|
  {
    if ts == [] then Some((u1, u2))
    else
      var p := ts[0].0;
      var q := ts[0].1;
      if p == 0.0 then
        if q < 0.0 then None else LBFold(ts[1..], u1, u2)
      else if p < 0.0 then LBFold(ts[1..], Max(u1, q / p), u2)
      else LBFold(ts[1..], u1, Min(u2, q / p))
  }

  /** One step of the fold, taken from position i of the tests. */
  lemma LBFoldAt(ts: seq<(real, real)>, i: nat, u1: real, u2: real)
    requires i < |ts|
    ensures ts[i].0 == 0.0 && ts[i].1 < 0.0 ==> LBFold(ts[i..], u1, u2).None?
    ensures ts[i].0 == 0.0 && ts[i].1 >= 0.0 ==> LBFold(ts[i..], u1, u2) == LBFold(ts[i + 1..], u1, u2)
    ensures ts[i].0 < 0.0 ==> LBFold(ts[i..], u1, u2) == LBFold(ts[i + 1..], Max(u1, ts[i].1 / ts[i].0), u2)
    ensures ts[i].0 > 0.0 ==> LBFold(ts[i..], u1, u2) == LBFold(ts[i + 1..], u1, Min(u2, ts[i].1 / ts[i].0))
  {
    assert ts[i..][0] == ts[i] && ts[i..][1..] == ts[i + 1..];
  }

  /** p * u <= q rearranged for a nonzero p. */
  lemma DivideByDirection(p: real, q: real, u: real)
    requires p != 0.0
    ensures p < 0.0 ==> (Passes(p, q, u) <==> u >= q / p)
    ensures p > 0.0 ==> (Passes(p, q, u) <==> u <= q / p)
  {
    var k := q / p;
    assert k * p == q;
    assert p * u - q == p * (u - k);
    if p < 0.0 {
      if u >= k { MulNonneg(-p, u - k); } else { MulPos(-p, k - u); }
    } else {
      if u <= k { MulNonneg(p, k - u); } else { MulPos(p, u - k); }
    }
  }

  /** The fold narrows [u1, u2] to exactly the parameters in it that pass
      every test, or reports that none does: the statement for one u. */
  lemma {:induction false} LBFoldExactAt(ts: seq<(real, real)>, u1: real, u2: real, u: real)
    ensures LBFold(ts, u1, u2).None? ==> !(u1 <= u <= u2 && Meets(ts, u))
    ensures LBFold(ts, u1, u2).Some? ==>
              ((u1 <= u <= u2 && Meets(ts, u)) <==>
               LBFold(ts, u1, u2).value.0 <= u <= LBFold(ts, u1, u2).value.1)
    decreases |ts|
  {
    if ts != [] {
      var p := ts[0].0;
      var q := ts[0].1;
      var rest := ts[1..];
      if p == 0.0 {
        if q >= 0.0 {
          LBFoldExactAt(rest, u1, u2, u);
        }
      } else if p < 0.0 {
        LBFoldExactAt(rest, Max(u1, q / p), u2, u);
        DivideByDirection(p, q, u);
      } else {
        LBFoldExactAt(rest, u1, Min(u2, q / p), u);
        DivideByDirection(p, q, u);
      }
    }
  }

  /** The parameter interval liang_barsky settles on, if any. */
  function LBRange(w: Window, p1: Point2, p2: Point2): Option<(real, real)> {
    LBFold(LBTerms(w, p1, p2), 0.0, 1.0)
  }

  /** liang_barsky: the segment between the two parameters, computed as
      p1 + u * (p2 - p1), when the lower is strictly below the upper. */
  function LiangBarsky(w: Window, p1: Point2, p2: Point2): (r: seq<Point2>)
    ensures r == [] || |r| == 2
  {
    match LBRange(w, p1, p2)
    case None => []
    case Some(us) =>
      if us.0 < us.1 then [Lerp(p1, p2, us.0), Lerp(p1, p2, us.1)] else []
  }

  /** The interval liang_barsky settles on is exactly the visible part of
      the segment (stated for each parameter u), and the result is its two
      ends whenever it is longer than a point. */
  lemma LiangBarskyExact(w: Window, p1: Point2, p2: Point2, u: real)
    ensures LBRange(w, p1, p2).None? ==> !Visible(w, p1, p2, u)
    ensures LBRange(w, p1, p2).Some? ==>
              (Visible(w, p1, p2, u) <==>
               LBRange(w, p1, p2).value.0 <= u <= LBRange(w, p1, p2).value.1)
    ensures LiangBarsky(w, p1, p2) ==
              if LBRange(w, p1, p2).Some? && LBRange(w, p1, p2).value.0 < LBRange(w, p1, p2).value.1
              then [Lerp(p1, p2, LBRange(w, p1, p2).value.0), Lerp(p1, p2, LBRange(w, p1, p2).value.1)]
              else []
  {
    LBFoldExactAt(LBTerms(w, p1, p2), 0.0, 1.0, u);
    MeetsIsInWindow(w, p1, p2, u);
  }

  /** liang_barsky keeps a segment exactly when more than one of its points
      is visible, and then both ends it returns are in the window. */
  lemma LiangBarskyNonEmpty(w: Window, p1: Point2, p2: Point2)
    ensures LiangBarsky(w, p1, p2) != [] <==>
            exists u, v :: Visible(w, p1, p2, u) && Visible(w, p1, p2, v) && u < v
    ensures LiangBarsky(w, p1, p2) != [] ==>
            InWindow(w, LiangBarsky(w, p1, p2)[0]) && InWindow(w, LiangBarsky(w, p1, p2)[1])
  {
    var r := LiangBarsky(w, p1, p2);
    if r != [] {
      var lo, hi := LBRange(w, p1, p2).value.0, LBRange(w, p1, p2).value.1;
      LiangBarskyExact(w, p1, p2, lo);
      LiangBarskyExact(w, p1, p2, hi);
      assert Visible(w, p1, p2, lo) && Visible(w, p1, p2, hi);
    }
    if exists u, v :: Visible(w, p1, p2, u) && Visible(w, p1, p2, v) && u < v {
      var u, v :| Visible(w, p1, p2, u) && Visible(w, p1, p2, v) && u < v;
      LiangBarskyExact(w, p1, p2, u);
      LiangBarskyExact(w, p1, p2, v);
    }
  }

  /** A segment with both ends in the window comes back unchanged. */
  lemma LiangBarskyInside(w: Window, p1: Point2, p2: Point2)
    requires InWindow(w, p1) && InWindow(w, p2)
    ensures LiangBarsky(w, p1, p2) == [p1, p2]
  {
    LerpEnds(p1, p2);
    LiangBarskyExact(w, p1, p2, 0.0);
    LiangBarskyExact(w, p1, p2, 1.0);
    var lo, hi := LBRange(w, p1, p2).value.0, LBRange(w, p1, p2).value.1;
    LiangBarskyExact(w, p1, p2, lo);
    LiangBarskyExact(w, p1, p2, hi);
  }

  /** When the visible parameters are exactly [lo, hi] with lo < hi,
      liang_barsky returns the points at lo and hi. */
  lemma LiangBarskyOfVisible(w: Window, p1: Point2, p2: Point2, lo: real, hi: real)
    requires lo < hi
    requires forall u :: Visible(w, p1, p2, u) <==> lo <= u <= hi
    ensures LiangBarsky(w, p1, p2) == [Lerp(p1, p2, lo), Lerp(p1, p2, hi)]
  {
    LiangBarskyExact(w, p1, p2, lo);
    LiangBarskyExact(w, p1, p2, hi);
    var a, b := LBRange(w, p1, p2).value.0, LBRange(w, p1, p2).value.1;
    LiangBarskyExact(w, p1, p2, a);
    LiangBarskyExact(w, p1, p2, b);
  }

  /** A horizontal segment at a height inside the window, running from
      left of the window to right of it, is cut at both vertical sides. */
  lemma LiangBarskyAcross(w: Window, a: real, b: real, y: real)
    requires Proper(w) && a < w.xMin && w.xMax < b && w.yMin <= y <= w.yMax
    ensures LiangBarsky(w, Point2(a, y), Point2(b, y)) == [Point2(w.xMin, y), Point2(w.xMax, y)]
  {
    var p1, p2 := Point2(a, y), Point2(b, y);
    var lo, hi := AcrossParam(a, b, w.xMin), AcrossParam(a, b, w.xMax);
    forall u
      ensures Visible(w, p1, p2, u) <==> lo <= u <= hi
    {
      AcrossVisibleAt(w, a, b, y, u);
    }
    AcrossEnds(w, a, b, y);
    LiangBarskyOfVisible(w, p1, p2, lo, hi);
  }

  /** The parameter where the segment from x = a to x = b reaches x = m. */
  function AcrossParam(a: real, b: real, m: real): real
    requires a < b
  {
    (m - a) / (b - a)
  }

  lemma AcrossVisibleAt(w: Window, a: real, b: real, y: real, u: real)
    requires Proper(w) && a < w.xMin && w.xMax < b && w.yMin <= y <= w.yMax
    ensures Visible(w, Point2(a, y), Point2(b, y), u) <==>
            AcrossParam(a, b, w.xMin) <= u <= AcrossParam(a, b, w.xMax)
  {
    var d := b - a;
    VisibleLevel(w, a, b, y, u);
    RatioBound(a, d, w.xMin, 0.0);
    RatioBound(a, d, w.xMax, 1.0);
    RatioBound(a, d, w.xMin, u);
    RatioBound(a, d, w.xMax, u);
  }

  /** On a level segment within the window's height, visibility is a
      bound on the abscissa. */
  lemma VisibleLevel(w: Window, a: real, b: real, y: real, u: real)
    requires w.yMin <= y <= w.yMax
    ensures Visible(w, Point2(a, y), Point2(b, y), u) <==>
            0.0 <= u <= 1.0 && w.xMin <= a + u * (b - a) <= w.xMax
  {
    assert Lerp(Point2(a, y), Point2(b, y), u) == Point2(a + u * (b - a), y);
  }

  lemma AcrossEnds(w: Window, a: real, b: real, y: real)
    requires Proper(w) && a < w.xMin && w.xMax < b
    ensures AcrossParam(a, b, w.xMin) < AcrossParam(a, b, w.xMax)
    ensures Lerp(Point2(a, y), Point2(b, y), AcrossParam(a, b, w.xMin)) == Point2(w.xMin, y)
    ensures Lerp(Point2(a, y), Point2(b, y), AcrossParam(a, b, w.xMax)) == Point2(w.xMax, y)
  {
    var d := b - a;
    var hi := AcrossParam(a, b, w.xMax);
    RatioBound(a, d, w.xMin, hi);
    RatioBound(a, d, w.xMax, hi);
  }

  /** a + u d against m, for a positive step d. */
  lemma RatioBound(a: real, d: real, m: real, u: real)
    requires d > 0.0
    ensures (m - a) / d * d == m - a
    ensures a + u * d >= m <==> u >= (m - a) / d
    ensures a + u * d <= m <==> u <= (m - a) / d
  {
    var k := (m - a) / d;
    assert k * d == m - a;
    assert a + u * d - m == (u - k) * d;
    if u >= k { MulNonneg(u - k, d); } else { MulPos(k - u, d); }
    if u <= k { MulNonneg(k - u, d); } else { MulPos(u - k, d); }
  }

  /** On the normalized window, (-2, 0)-(2, 0) becomes (-1, 0)-(1, 0). */
  lemma LiangBarskyCutsBothSides()
    ensures LiangBarsky(SCN, Point2(-2.0, 0.0), Point2(2.0, 0.0)) == [Point2(-1.0, 0.0), Point2(1.0, 0.0)]
  {
    LiangBarskyAcross(SCN, -2.0, 2.0, 0.0);
  }

  // =============================================== iterative outcode clipper

  /** The point where the segment meets the boundary line of side bit,
      computed as nicholl_lee_nicholl does: x is fixed for the left and
      right sides and y interpolated, and the other way round for bottom
      and top.  The clipper picks the side as the lowest bit set in the
      outcode it moves, which is FirstBit of that outcode. */
  function Crossing(w: Window, p1: Point2, p2: Point2, bit: bv4): Point2
    requires bit in {1, 2, 4, 8}
    requires Gap(w, bit, p1) != Gap(w, bit, p2)
  {
    if bit == 1 then AtX(p1, p2, w.xMin)
    else if bit == 2 then AtX(p1, p2, w.xMax)
    else if bit == 4 then AtY(p1, p2, w.yMin)
    else AtY(p1, p2, w.yMax)
  }

  /** The point of the line through p1 and p2 with abscissa x: y is
      interpolated. */
  function AtX(p1: Point2, p2: Point2, x: real): Point2
    requires p2.x != p1.x
  {
    Point2(x, p1.y + (p2.y - p1.y) * (x - p1.x) / (p2.x - p1.x))
  }

  /** The point of the line through p1 and p2 with ordinate y. */
  function AtY(p1: Point2, p2: Point2, y: real): Point2
    requires p2.y != p1.y
  {
    Point2(p1.x + (p2.x - p1.x) * (y - p1.y) / (p2.y - p1.y), y)
  }

  /** n * m / d is m times n / d. */
  lemma DivScale(m: real, n: real, d: real)
    requires d != 0.0
    ensures m * n / d == (n / d) * m
    ensures (-n) / (-d) == n / d
  {
    var k, l, j := n / d, m * n / d, (-n) / (-d);
    assert k * d == n;
    assert l * d == m * n;
    assert (k * m) * d == m * n;
    MulCancel(l, k * m, d);
    assert j * (-d) == -n;
    assert j * d == n;
    MulCancel(j, k, d);
  }

  /** The crossing with a vertical line x is the point of the segment at
      the parameter (x - p1.x) / (p2.x - p1.x), which is also the ratio of
      the gaps of either vertical side at that x. */
  lemma VerticalCrossing(p1: Point2, p2: Point2, x: real)
    requires p2.x != p1.x
    ensures AtX(p1, p2, x) == Lerp(p1, p2, (x - p1.x) / (p2.x - p1.x))
    ensures (p1.x - x) / ((p1.x - x) - (p2.x - x)) == (x - p1.x) / (p2.x - p1.x)
    ensures (x - p1.x) / ((x - p1.x) - (x - p2.x)) == (x - p1.x) / (p2.x - p1.x)
  {
    var t := (x - p1.x) / (p2.x - p1.x);
    assert t * (p2.x - p1.x) == x - p1.x;
    DivScale(p2.y - p1.y, x - p1.x, p2.x - p1.x);
    assert (p1.x - x) - (p2.x - x) == -(p2.x - p1.x);
    assert (x - p1.x) - (x - p2.x) == p2.x - p1.x;
  }

  /** The crossing with a horizontal line y, likewise. */
  lemma HorizontalCrossing(p1: Point2, p2: Point2, y: real)
    requires p2.y != p1.y
    ensures AtY(p1, p2, y) == Lerp(p1, p2, (y - p1.y) / (p2.y - p1.y))
    ensures (p1.y - y) / ((p1.y - y) - (p2.y - y)) == (y - p1.y) / (p2.y - p1.y)
    ensures (y - p1.y) / ((y - p1.y) - (y - p2.y)) == (y - p1.y) / (p2.y - p1.y)
  {
    var t := (y - p1.y) / (p2.y - p1.y);
    assert t * (p2.y - p1.y) == y - p1.y;
    DivScale(p2.x - p1.x, y - p1.y, p2.y - p1.y);
    assert (p1.y - y) - (p2.y - y) == -(p2.y - p1.y);
    assert (y - p1.y) - (y - p2.y) == p2.y - p1.y;
  }

  /** The crossing is the point of the segment at the parameter where the
      gap of that side vanishes. */
  lemma CrossingIsCut(w: Window, p1: Point2, p2: Point2, bit: bv4)
    requires bit in {1, 2, 4, 8}
    requires Gap(w, bit, p1) != Gap(w, bit, p2)
    ensures Crossing(w, p1, p2, bit) == Lerp(p1, p2, Gap(w, bit, p1) / (Gap(w, bit, p1) - Gap(w, bit, p2)))
    ensures Gap(w, bit, Crossing(w, p1, p2, bit)) == 0.0
  {
    if bit == 1 {
      CrossingIsCutLeft(w, p1, p2);
    } else if bit == 2 {
      CrossingIsCutRight(w, p1, p2);
    } else if bit == 4 {
      CrossingIsCutBottom(w, p1, p2);
    } else {
      CrossingIsCutTop(w, p1, p2);
    }
  }

  /** CrossingIsCut for each side. */
  lemma CrossingIsCutLeft(w: Window, p1: Point2, p2: Point2)
    requires Gap(w, 1, p1) != Gap(w, 1, p2)
    ensures Crossing(w, p1, p2, 1) == Lerp(p1, p2, Gap(w, 1, p1) / (Gap(w, 1, p1) - Gap(w, 1, p2)))
    ensures Gap(w, 1, Crossing(w, p1, p2, 1)) == 0.0
  {
    CrossingUnfoldLeft(w, p1, p2);
    VerticalCrossing(p1, p2, w.xMin);
  }

  lemma CrossingUnfoldLeft(w: Window, p1: Point2, p2: Point2)
    requires Gap(w, 1, p1) != Gap(w, 1, p2)
    ensures Gap(w, 1, p1) == p1.x - w.xMin && Gap(w, 1, p2) == p2.x - w.xMin
    ensures Crossing(w, p1, p2, 1) == AtX(p1, p2, w.xMin)
    ensures Gap(w, 1, Crossing(w, p1, p2, 1)) == 0.0
  {
  }

  lemma CrossingIsCutRight(w: Window, p1: Point2, p2: Point2)
    requires Gap(w, 2, p1) != Gap(w, 2, p2)
    ensures Crossing(w, p1, p2, 2) == Lerp(p1, p2, Gap(w, 2, p1) / (Gap(w, 2, p1) - Gap(w, 2, p2)))
    ensures Gap(w, 2, Crossing(w, p1, p2, 2)) == 0.0
  {
    CrossingUnfoldRight(w, p1, p2);
    VerticalCrossing(p1, p2, w.xMax);
  }

  lemma CrossingUnfoldRight(w: Window, p1: Point2, p2: Point2)
    requires Gap(w, 2, p1) != Gap(w, 2, p2)
    ensures Gap(w, 2, p1) == w.xMax - p1.x && Gap(w, 2, p2) == w.xMax - p2.x
    ensures Crossing(w, p1, p2, 2) == AtX(p1, p2, w.xMax)
    ensures Gap(w, 2, Crossing(w, p1, p2, 2)) == 0.0
  {
  }

  lemma CrossingIsCutBottom(w: Window, p1: Point2, p2: Point2)
    requires Gap(w, 4, p1) != Gap(w, 4, p2)
    ensures Crossing(w, p1, p2, 4) == Lerp(p1, p2, Gap(w, 4, p1) / (Gap(w, 4, p1) - Gap(w, 4, p2)))
    ensures Gap(w, 4, Crossing(w, p1, p2, 4)) == 0.0
  {
    CrossingUnfoldBottom(w, p1, p2);
    HorizontalCrossing(p1, p2, w.yMin);
  }

  lemma CrossingUnfoldBottom(w: Window, p1: Point2, p2: Point2)
    requires Gap(w, 4, p1) != Gap(w, 4, p2)
    ensures Gap(w, 4, p1) == p1.y - w.yMin && Gap(w, 4, p2) == p2.y - w.yMin
    ensures Crossing(w, p1, p2, 4) == AtY(p1, p2, w.yMin)
    ensures Gap(w, 4, Crossing(w, p1, p2, 4)) == 0.0
  {
  }

  lemma CrossingIsCutTop(w: Window, p1: Point2, p2: Point2)
    requires Gap(w, 8, p1) != Gap(w, 8, p2)
    ensures Crossing(w, p1, p2, 8) == Lerp(p1, p2, Gap(w, 8, p1) / (Gap(w, 8, p1) - Gap(w, 8, p2)))
    ensures Gap(w, 8, Crossing(w, p1, p2, 8)) == 0.0
  {
    CrossingUnfoldTop(w, p1, p2);
    HorizontalCrossing(p1, p2, w.yMax);
  }

  lemma CrossingUnfoldTop(w: Window, p1: Point2, p2: Point2)
    requires Gap(w, 8, p1) != Gap(w, 8, p2)
    ensures Gap(w, 8, p1) == w.yMax - p1.y && Gap(w, 8, p2) == w.yMax - p2.y
    ensures Crossing(w, p1, p2, 8) == AtY(p1, p2, w.yMax)
    ensures Gap(w, 8, Crossing(w, p1, p2, 8)) == 0.0
  {
  }

  /** One round of nicholl_lee_nicholl on a segment neither accepted nor
      rejected: the end it moves lies beyond the first side of its outcode
      and the other end does not, the new end is on the segment, and the
      outcodes together lose that side, so the loop ends. */
  lemma NLNStep(w: Window, p1: Point2, p2: Point2)
    requires Proper(w)
    requires Outcode(w, p1) | Outcode(w, p2) != 0 && Outcode(w, p1) & Outcode(w, p2) == 0
    ensures var o1, o2 := Outcode(w, p1), Outcode(w, p2);
            var out := if o1 != 0 then o1 else o2;
            var b := FirstBit(out);
            var g1, g2 := Gap(w, b, p1), Gap(w, b, p2);
            && (out == o1 ==> g1 < 0.0 <= g2)
            && (out != o1 ==> g2 < 0.0 <= g1)
            && g1 != g2
            && 0.0 <= g1 / (g1 - g2) <= 1.0
            && Crossing(w, p1, p2, b) == Lerp(p1, p2, g1 / (g1 - g2))
            && (out == o1 ==> Bits(Outcode(w, Crossing(w, p1, p2, b)) | o2) < Bits(o1 | o2))
            && (out != o1 ==> Bits(o1 | Outcode(w, Crossing(w, p1, p2, b))) < Bits(o1 | o2))
  {
    var o1, o2 := Outcode(w, p1), Outcode(w, p2);
    var out := if o1 != 0 then o1 else o2;
    var b := FirstBit(out);
    GapSign(w, b, p1);
    GapSign(w, b, p2);
    var g1, g2 := Gap(w, b, p1), Gap(w, b, p2);
    CutParamInUnit(g1, g2);
    CrossingIsCut(w, p1, p2, b);
    var t := g1 / (g1 - g2);
    var q := Crossing(w, p1, p2, b);
    OutcodeOfLerp(w, p1, p2, t);
    GapSign(w, b, q);
    if out == o1 {
      BitsDecrease(Outcode(w, q) | o2, o1 | o2, b);
    } else {
      BitsDecrease(o1 | Outcode(w, q), o1 | o2, b);
    }
  }

  /** nicholl_lee_nicholl: move an end beyond a side to that side's
      boundary until the segment is trivially accepted (both ends inside)
      or trivially rejected (both ends beyond one side). */
  function NLNClip(w: Window, p1: Point2, p2: Point2): (r: seq<Point2>)
    requires Proper(w)
    ensures r == [] || |r| == 2
    decreases Bits(Outcode(w, p1) | Outcode(w, p2))
  {
    var o1, o2 := Outcode(w, p1), Outcode(w, p2);
    if o1 | o2 == 0 then [p1, p2]
    else if o1 & o2 != 0 then []
    else
      var out := if o1 != 0 then o1 else o2;
      NLNStep(w, p1, p2);
      var q := Crossing(w, p1, p2, FirstBit(out));
      if out == o1 then NLNClip(w, q, p2) else NLNClip(w, p1, q)
  }

  /** The parameter, on the ORIGINAL segment from a to b, of the point
      that one round moves an end to, when the current ends stand at
      parameters s1 and s2. */
  ghost function NLNCut(w: Window, a: Point2, b: Point2, s1: real, s2: real): real
    requires Proper(w)
    requires var o1, o2 := Outcode(w, Lerp(a, b, s1)), Outcode(w, Lerp(a, b, s2));
             o1 | o2 != 0 && o1 & o2 == 0
  {
    var p1, p2 := Lerp(a, b, s1), Lerp(a, b, s2);
    var o1, o2 := Outcode(w, p1), Outcode(w, p2);
    var bit := FirstBit(if o1 != 0 then o1 else o2);
    NLNStep(w, p1, p2);
    s1 + Gap(w, bit, p1) / (Gap(w, bit, p1) - Gap(w, bit, p2)) * (s2 - s1)
  }

  /** The same iteration followed on the parameters of the ORIGINAL segment
      from a to b: the interval [s1, s2] that the current ends stand at. */
  ghost function NLNRange(w: Window, a: Point2, b: Point2, s1: real, s2: real): Option<(real, real)>
    requires Proper(w) && s1 <= s2
    decreases Bits(Outcode(w, Lerp(a, b, s1)) | Outcode(w, Lerp(a, b, s2)))
  {
    var o1, o2 := Outcode(w, Lerp(a, b, s1)), Outcode(w, Lerp(a, b, s2));
    if o1 | o2 == 0 then Some((s1, s2))
    else if o1 & o2 != 0 then None
    else
      var s := NLNCut(w, a, b, s1, s2);
      NLNCutFacts(w, a, b, s1, s2);
      if o1 != 0 then NLNRange(w, a, b, s, s2) else NLNRange(w, a, b, s1, s)
  }

  /** One round on parameters: the new parameter s lies between the old
      ones, its point is the point the clipper moves the end to, the
      outcodes lose a side, and no visible parameter is cut away. */
  lemma NLNCutFacts(w: Window, a: Point2, b: Point2, s1: real, s2: real)
    requires Proper(w) && s1 <= s2
    requires var o1, o2 := Outcode(w, Lerp(a, b, s1)), Outcode(w, Lerp(a, b, s2));
             o1 | o2 != 0 && o1 & o2 == 0
    ensures var p1, p2 := Lerp(a, b, s1), Lerp(a, b, s2);
            var o1, o2 := Outcode(w, p1), Outcode(w, p2);
            var out := if o1 != 0 then o1 else o2;
            var s := NLNCut(w, a, b, s1, s2);
            && s1 <= s <= s2
            && Lerp(a, b, s) == Crossing(w, p1, p2, FirstBit(out))
            && (o1 != 0 ==> Bits(Outcode(w, Lerp(a, b, s)) | o2) < Bits(o1 | o2))
            && (o1 == 0 ==> Bits(o1 | Outcode(w, Lerp(a, b, s))) < Bits(o1 | o2))
            && (forall v :: Visible(w, a, b, v) ==> (o1 != 0 ==> s <= v) && (o1 == 0 ==> v <= s))
  {
    var p1, p2 := Lerp(a, b, s1), Lerp(a, b, s2);
    var o1, o2 := Outcode(w, p1), Outcode(w, p2);
    var out := if o1 != 0 then o1 else o2;
    var bit := FirstBit(out);
    NLNStep(w, p1, p2);
    NLNCutPoint(w, a, b, s1, s2);
    CutKeepsVisible(w, a, b, bit, s1, NLNCut(w, a, b, s1, s2), s2, o1 != 0);
  }

  /** The new parameter lies between the old ones, and its point is where
      the segment between their points crosses the side's boundary. */
  lemma NLNCutPoint(w: Window, a: Point2, b: Point2, s1: real, s2: real)
    requires Proper(w) && s1 <= s2
    requires var o1, o2 := Outcode(w, Lerp(a, b, s1)), Outcode(w, Lerp(a, b, s2));
             o1 | o2 != 0 && o1 & o2 == 0
    ensures var p1, p2 := Lerp(a, b, s1), Lerp(a, b, s2);
            var bit := FirstBit(if Outcode(w, p1) != 0 then Outcode(w, p1) else Outcode(w, p2));
            var s := NLNCut(w, a, b, s1, s2);
            && s1 <= s <= s2
            && Lerp(a, b, s) == Crossing(w, p1, p2, bit)
            && Gap(w, bit, Lerp(a, b, s)) == 0.0
  {
    var p1, p2 := Lerp(a, b, s1), Lerp(a, b, s2);
    var bit := FirstBit(if Outcode(w, p1) != 0 then Outcode(w, p1) else Outcode(w, p2));
    NLNStep(w, p1, p2);
    var t := Gap(w, bit, p1) / (Gap(w, bit, p1) - Gap(w, bit, p2));
    NLNCutValue(w, a, b, s1, s2);
    var s := NLNCut(w, a, b, s1, s2);
    CrossingIsCut(w, p1, p2, bit);
    CutPointAt(a, b, s1, s2, t, s, Crossing(w, p1, p2, bit));
  }

  /** The parameter one round moves an end to, written out. */
  lemma NLNCutValue(w: Window, a: Point2, b: Point2, s1: real, s2: real)
    requires Proper(w)
    requires var o1, o2 := Outcode(w, Lerp(a, b, s1)), Outcode(w, Lerp(a, b, s2));
             o1 | o2 != 0 && o1 & o2 == 0
    ensures var p1, p2 := Lerp(a, b, s1), Lerp(a, b, s2);
            var bit := FirstBit(if Outcode(w, p1) != 0 then Outcode(w, p1) else Outcode(w, p2));
            NLNCut(w, a, b, s1, s2) == s1 + Gap(w, bit, p1) / (Gap(w, bit, p1) - Gap(w, bit, p2)) * (s2 - s1)
  {
  }

  /** The point at parameter s = s1 + t (s2 - s1) of the original segment
      is the point a fraction t of the way between the points at s1 and s2,
      and s lies between s1 and s2. */
  lemma CutPointAt(a: Point2, b: Point2, s1: real, s2: real, t: real, s: real, q: Point2)
    requires s1 <= s2 && 0.0 <= t <= 1.0 && s == s1 + t * (s2 - s1)
    requires q == Lerp(Lerp(a, b, s1), Lerp(a, b, s2), t)
    ensures s1 <= s <= s2 && Lerp(a, b, s) == q
  {
    MulNonneg(t, s2 - s1);
    MulNonneg(1.0 - t, s2 - s1);
    LerpCoordOfLerp(a.x, b.x, s1, s2, t);
    LerpCoordOfLerp(a.y, b.y, s1, s2, t);
    var r := Lerp(a, b, s);
    assert r.x == q.x && r.y == q.y;
  }

  /** Moving the end beyond a side to that side's boundary, at parameter s,
      discards no visible parameter. */
  lemma CutKeepsVisible(w: Window, a: Point2, b: Point2, bit: bv4, s1: real, s: real, s2: real, lower: bool)
    requires bit in {1, 2, 4, 8} && s1 <= s <= s2 && Gap(w, bit, Lerp(a, b, s)) == 0.0
    requires lower ==> Gap(w, bit, Lerp(a, b, s1)) < 0.0
    requires !lower ==> Gap(w, bit, Lerp(a, b, s2)) < 0.0
    ensures forall v :: Visible(w, a, b, v) ==> (lower ==> s <= v) && (!lower ==> v <= s)
  {
    forall v | Visible(w, a, b, v) ensures (lower ==> s <= v) && (!lower ==> v <= s) {
      if lower {
        CutKeepsVisibleLower(w, a, b, bit, s1, s, v);
      } else {
        CutKeepsVisibleUpper(w, a, b, bit, s, s2, v);
      }
    }
  }

  /** An affine function of the parameter that lies within [lo, hi] at two
      parameters lies within it between them. */
  lemma AffineStays(c: real, d: real, lo: real, hi: real, s1: real, s2: real, u: real)
    requires s1 <= u <= s2
    requires lo <= c + s1 * d <= hi && lo <= c + s2 * d <= hi
    ensures lo <= c + u * d <= hi
  {
    if d >= 0.0 {
      MulNonneg(u - s1, d);
      MulNonneg(s2 - u, d);
    } else {
      MulNonneg(u - s1, -d);
      MulNonneg(s2 - u, -d);
    }
  }

  /** One below m at two parameters is below m between them. */
  lemma AffineBelow(c: real, d: real, m: real, s1: real, s2: real, u: real)
    requires s1 <= u <= s2 && c + s1 * d < m && c + s2 * d < m
    ensures c + u * d < m
  {
    if d >= 0.0 { MulNonneg(s2 - u, d); } else { MulNonneg(u - s1, -d); }
  }

  /** One above m at two parameters is above m between them. */
  lemma AffineAbove(c: real, d: real, m: real, s1: real, s2: real, u: real)
    requires s1 <= u <= s2 && c + s1 * d > m && c + s2 * d > m
    ensures c + u * d > m
  {
    if d >= 0.0 { MulNonneg(u - s1, d); } else { MulNonneg(s2 - u, -d); }
  }

  /** An affine function rising through m at s (below m at some s1 <= s)
      reaches m or more only from s on. */
  lemma RisingFrom(c: real, d: real, m: real, s1: real, s: real, v: real)
    requires s1 <= s && c + s * d == m && c + s1 * d < m && c + v * d >= m
    ensures v >= s
  {
    if d <= 0.0 { MulNonneg(s - s1, -d); }
    if v < s { MulPos(s - v, d); }
  }

  /** Falling through m at s (above m at some s1 <= s): m or less only from s on. */
  lemma FallingFrom(c: real, d: real, m: real, s1: real, s: real, v: real)
    requires s1 <= s && c + s * d == m && c + s1 * d > m && c + v * d <= m
    ensures v >= s
  {
    if d >= 0.0 { MulNonneg(s - s1, d); }
    if v < s { MulPos(s - v, -d); }
  }

  /** Rising through m at s (below m at some s2 >= s): m or less only up to s. */
  lemma RisingUpTo(c: real, d: real, m: real, s: real, s2: real, v: real)
    requires s <= s2 && c + s * d == m && c + s2 * d > m && c + v * d <= m
    ensures v <= s
  {
    if d <= 0.0 { MulNonneg(s2 - s, -d); }
    if v > s { MulPos(v - s, d); }
  }

  /** Falling through m at s (below m at some s2 >= s): m or more only up to s. */
  lemma FallingUpTo(c: real, d: real, m: real, s: real, s2: real, v: real)
    requires s <= s2 && c + s * d == m && c + s2 * d < m && c + v * d >= m
    ensures v <= s
  {
    if d >= 0.0 { MulNonneg(s2 - s, d); }
    if v > s { MulPos(v - s, -d); }
  }

  /** Every parameter between two parameters whose points are in the
      window has its point in the window too. */
  lemma BetweenVisible(w: Window, a: Point2, b: Point2, s1: real, s2: real, u: real)
    requires InWindow(w, Lerp(a, b, s1)) && InWindow(w, Lerp(a, b, s2)) && s1 <= u <= s2
    ensures InWindow(w, Lerp(a, b, u))
  {
    AffineStays(a.x, b.x - a.x, w.xMin, w.xMax, s1, s2, u);
    AffineStays(a.y, b.y - a.y, w.yMin, w.yMax, s1, s2, u);
  }

  /** Between two parameters whose points are both beyond one side, no
      point is in the window. */
  lemma BetweenHidden(w: Window, a: Point2, b: Point2, s1: real, s2: real, u: real, bit: bv4)
    requires bit in {1, 2, 4, 8}
    requires Gap(w, bit, Lerp(a, b, s1)) < 0.0 && Gap(w, bit, Lerp(a, b, s2)) < 0.0 && s1 <= u <= s2
    ensures !InWindow(w, Lerp(a, b, u))
  {
    GapBetween(w, a, b, s1, s2, u, bit);
    WindowGap(w, Lerp(a, b, u), bit);
  }

  /** The gap to one side is negative between two parameters where it is. */
  lemma GapBetween(w: Window, a: Point2, b: Point2, s1: real, s2: real, u: real, bit: bv4)
    requires bit in {1, 2, 4, 8}
    requires Gap(w, bit, Lerp(a, b, s1)) < 0.0 && Gap(w, bit, Lerp(a, b, s2)) < 0.0 && s1 <= u <= s2
    ensures Gap(w, bit, Lerp(a, b, u)) < 0.0
  {
    var dx, dy := b.x - a.x, b.y - a.y;
    if bit == 1 {
      AffineBelow(a.x, dx, w.xMin, s1, s2, u);
    } else if bit == 2 {
      AffineAbove(a.x, dx, w.xMax, s1, s2, u);
    } else if bit == 4 {
      AffineBelow(a.y, dy, w.yMin, s1, s2, u);
    } else {
      AffineAbove(a.y, dy, w.yMax, s1, s2, u);
    }
  }

  /** RisingFrom and its three companions along one coordinate of the
      segment from a to b. */
  lemma RisingFromAlong(a: Point2, b: Point2, onX: bool, m: real, s1: real, s: real, v: real)
    requires s1 <= s
    requires Along(a, b, onX, s) == m && Along(a, b, onX, s1) < m && Along(a, b, onX, v) >= m
    ensures v >= s
  {
    if onX {
      AlongAffine(a, b, onX, s1);
      AlongAffine(a, b, onX, s);
      AlongAffine(a, b, onX, v);
      RisingFrom(a.x, b.x - a.x, m, s1, s, v);
    } else {
      AlongAffine(a, b, onX, s1);
      AlongAffine(a, b, onX, s);
      AlongAffine(a, b, onX, v);
      RisingFrom(a.y, b.y - a.y, m, s1, s, v);
    }
  }

  lemma FallingFromAlong(a: Point2, b: Point2, onX: bool, m: real, s1: real, s: real, v: real)
    requires s1 <= s
    requires Along(a, b, onX, s) == m && Along(a, b, onX, s1) > m && Along(a, b, onX, v) <= m
    ensures v >= s
  {
    if onX {
      AlongAffine(a, b, onX, s1);
      AlongAffine(a, b, onX, s);
      AlongAffine(a, b, onX, v);
      FallingFrom(a.x, b.x - a.x, m, s1, s, v);
    } else {
      AlongAffine(a, b, onX, s1);
      AlongAffine(a, b, onX, s);
      AlongAffine(a, b, onX, v);
      FallingFrom(a.y, b.y - a.y, m, s1, s, v);
    }
  }

  lemma RisingUpToAlong(a: Point2, b: Point2, onX: bool, m: real, s: real, s2: real, v: real)
    requires s <= s2
    requires Along(a, b, onX, s) == m && Along(a, b, onX, s2) > m && Along(a, b, onX, v) <= m
    ensures v <= s
  {
    if onX {
      AlongAffine(a, b, onX, s);
      AlongAffine(a, b, onX, s2);
      AlongAffine(a, b, onX, v);
      RisingUpTo(a.x, b.x - a.x, m, s, s2, v);
    } else {
      AlongAffine(a, b, onX, s);
      AlongAffine(a, b, onX, s2);
      AlongAffine(a, b, onX, v);
      RisingUpTo(a.y, b.y - a.y, m, s, s2, v);
    }
  }

  lemma FallingUpToAlong(a: Point2, b: Point2, onX: bool, m: real, s: real, s2: real, v: real)
    requires s <= s2
    requires Along(a, b, onX, s) == m && Along(a, b, onX, s2) < m && Along(a, b, onX, v) >= m
    ensures v <= s
  {
    if onX {
      AlongAffine(a, b, onX, s);
      AlongAffine(a, b, onX, s2);
      AlongAffine(a, b, onX, v);
      FallingUpTo(a.x, b.x - a.x, m, s, s2, v);
    } else {
      AlongAffine(a, b, onX, s);
      AlongAffine(a, b, onX, s2);
      AlongAffine(a, b, onX, v);
      FallingUpTo(a.y, b.y - a.y, m, s, s2, v);
    }
  }

  /** One coordinate of the point at parameter t. */
  function Along(a: Point2, b: Point2, onX: bool, t: real): real {
    if onX then Lerp(a, b, t).x else Lerp(a, b, t).y
  }

  /** Along is affine in t. */
  lemma AlongAffine(a: Point2, b: Point2, onX: bool, t: real)
    ensures onX ==> Along(a, b, onX, t) == a.x + t * (b.x - a.x)
    ensures !onX ==> Along(a, b, onX, t) == a.y + t * (b.y - a.y)
  {
  }

  /** A point of the window is on the inner side of every side. */
  lemma WindowGap(w: Window, p: Point2, bit: bv4)
    requires bit in {1, 2, 4, 8}
    ensures InWindow(w, p) ==> Gap(w, bit, p) >= 0.0
  {
  }

  /** Moving the first end from beyond a side to that side's boundary
      discards no visible parameter. */
  lemma CutKeepsVisibleLower(w: Window, a: Point2, b: Point2, bit: bv4, s1: real, s: real, v: real)
    requires bit in {1, 2, 4, 8} && s1 <= s
    requires Gap(w, bit, Lerp(a, b, s1)) < 0.0 && Gap(w, bit, Lerp(a, b, s)) == 0.0
    requires Visible(w, a, b, v)
    ensures s <= v
  {
    WindowGap(w, Lerp(a, b, v), bit);
    GapRisingFrom(w, a, b, bit, s1, s, v);
  }

  /** A gap negative at s1 and zero at s >= s1 is non-negative only from s on. */
  lemma GapRisingFrom(w: Window, a: Point2, b: Point2, bit: bv4, s1: real, s: real, v: real)
    requires bit in {1, 2, 4, 8} && s1 <= s
    requires Gap(w, bit, Lerp(a, b, s1)) < 0.0 && Gap(w, bit, Lerp(a, b, s)) == 0.0
    requires Gap(w, bit, Lerp(a, b, v)) >= 0.0
    ensures s <= v
  {
    if bit == 1 {
      RisingFromAlong(a, b, true, w.xMin, s1, s, v);
    } else if bit == 2 {
      FallingFromAlong(a, b, true, w.xMax, s1, s, v);
    } else if bit == 4 {
      RisingFromAlong(a, b, false, w.yMin, s1, s, v);
    } else {
      FallingFromAlong(a, b, false, w.yMax, s1, s, v);
    }
  }

  /** Moving the second end likewise. */
  lemma CutKeepsVisibleUpper(w: Window, a: Point2, b: Point2, bit: bv4, s: real, s2: real, v: real)
    requires bit in {1, 2, 4, 8} && s <= s2
    requires Gap(w, bit, Lerp(a, b, s2)) < 0.0 && Gap(w, bit, Lerp(a, b, s)) == 0.0
    requires Visible(w, a, b, v)
    ensures v <= s
  {
    WindowGap(w, Lerp(a, b, v), bit);
    GapFallingUpTo(w, a, b, bit, s, s2, v);
  }

  /** A gap zero at s and negative at s2 >= s is non-negative only up to s. */
  lemma GapFallingUpTo(w: Window, a: Point2, b: Point2, bit: bv4, s: real, s2: real, v: real)
    requires bit in {1, 2, 4, 8} && s <= s2
    requires Gap(w, bit, Lerp(a, b, s2)) < 0.0 && Gap(w, bit, Lerp(a, b, s)) == 0.0
    requires Gap(w, bit, Lerp(a, b, v)) >= 0.0
    ensures v <= s
  {
    if bit == 1 {
      FallingUpToAlong(a, b, true, w.xMin, s, s2, v);
    } else if bit == 2 {
      RisingUpToAlong(a, b, true, w.xMax, s, s2, v);
    } else if bit == 4 {
      FallingUpToAlong(a, b, false, w.yMin, s, s2, v);
    } else {
      RisingUpToAlong(a, b, false, w.yMax, s, s2, v);
    }
  }

  /** Following the iteration on parameters: the clipper's result is the
      segment between the final parameters, these lie within [s1, s2], and
      if every visible parameter lies within [s1, s2] then the final
      interval is exactly the visible one (stated for each parameter u). */
  lemma {:induction false} NLNRangeCorrect(w: Window, a: Point2, b: Point2, s1: real, s2: real, u: real)
    requires Proper(w) && 0.0 <= s1 <= s2 <= 1.0
    requires forall v :: Visible(w, a, b, v) ==> s1 <= v <= s2
    ensures NLNClip(w, Lerp(a, b, s1), Lerp(a, b, s2)) ==
              match NLNRange(w, a, b, s1, s2)
              case None => []
              case Some(r) => [Lerp(a, b, r.0), Lerp(a, b, r.1)]
    ensures NLNRange(w, a, b, s1, s2).Some? ==>
              s1 <= NLNRange(w, a, b, s1, s2).value.0 <= NLNRange(w, a, b, s1, s2).value.1 <= s2
    ensures NLNRange(w, a, b, s1, s2).None? ==> !Visible(w, a, b, u)
    ensures NLNRange(w, a, b, s1, s2).Some? ==>
              (Visible(w, a, b, u) <==>
               NLNRange(w, a, b, s1, s2).value.0 <= u <= NLNRange(w, a, b, s1, s2).value.1)
    decreases Bits(Outcode(w, Lerp(a, b, s1)) | Outcode(w, Lerp(a, b, s2)))
  {
    var p1, p2 := Lerp(a, b, s1), Lerp(a, b, s2);
    var o1, o2 := Outcode(w, p1), Outcode(w, p2);
    if o1 | o2 == 0 {
      OutcodeBits(w, p1);
      OutcodeBits(w, p2);
      if s1 <= u <= s2 {
        BetweenVisible(w, a, b, s1, s2, u);
      }
    } else if o1 & o2 != 0 {
      var c := FirstBit(o1 & o2);
      GapSign(w, c, p1);
      GapSign(w, c, p2);
      if s1 <= u <= s2 {
        BetweenHidden(w, a, b, s1, s2, u, c);
      }
    } else {
      NLNCutFacts(w, a, b, s1, s2);
      var s := NLNCut(w, a, b, s1, s2);
      if o1 != 0 {
        NLNRangeCorrect(w, a, b, s, s2, u);
      } else {
        NLNRangeCorrect(w, a, b, s1, s, u);
      }
    }
  }

  /** nicholl_lee_nicholl returns exactly the visible part of the segment:
      nothing when no point of it is in the window, and otherwise the ends
      of the visible interval [lo, hi] (stated for each parameter u). */
  lemma NLNExact(w: Window, p1: Point2, p2: Point2, u: real)
    requires Proper(w)
    ensures var g := NLNRange(w, p1, p2, 0.0, 1.0);
            && NLNClip(w, p1, p2) == (if g.None? then [] else [Lerp(p1, p2, g.value.0), Lerp(p1, p2, g.value.1)])
            && (g.None? ==> !Visible(w, p1, p2, u))
            && (g.Some? ==> 0.0 <= g.value.0 <= g.value.1 <= 1.0)
            && (g.Some? ==> (Visible(w, p1, p2, u) <==> g.value.0 <= u <= g.value.1))
  {
    LerpEnds(p1, p2);
    NLNRangeCorrect(w, p1, p2, 0.0, 1.0, u);
  }

  /** Whatever nicholl_lee_nicholl returns lies in the window, and it
      returns nothing only when no point of the segment is visible. */
  lemma NLNInside(w: Window, p1: Point2, p2: Point2)
    requires Proper(w)
    ensures NLNClip(w, p1, p2) != [] ==> InWindow(w, NLNClip(w, p1, p2)[0]) && InWindow(w, NLNClip(w, p1, p2)[1])
    ensures NLNClip(w, p1, p2) == [] <==> forall u :: !Visible(w, p1, p2, u)
  {
    var g := NLNRange(w, p1, p2, 0.0, 1.0);
    if g.Some? {
      NLNExact(w, p1, p2, g.value.0);
      NLNExact(w, p1, p2, g.value.1);
    } else {
      NLNExact(w, p1, p2, 0.0);
      forall u ensures !Visible(w, p1, p2, u) {
        NLNExact(w, p1, p2, u);
      }
    }
  }

  /** Liang–Barsky and the iterative outcode clipper agree on every segment
      with more than one visible point; on a segment that touches the window
      in a single point, Liang–Barsky returns nothing while the outcode
      clipper returns that point twice. */
  lemma ClippersAgree(w: Window, p1: Point2, p2: Point2)
    requires Proper(w)
    ensures LiangBarsky(w, p1, p2) != [] ==> NLNClip(w, p1, p2) == LiangBarsky(w, p1, p2)
    ensures LiangBarsky(w, p1, p2) == [] && NLNClip(w, p1, p2) != [] ==>
              NLNClip(w, p1, p2)[0] == NLNClip(w, p1, p2)[1]
  {
    var g := NLNRange(w, p1, p2, 0.0, 1.0);
    var l := LBRange(w, p1, p2);
    LiangBarskyExact(w, p1, p2, 0.0);
    NLNExact(w, p1, p2, 0.0);
    if g.Some? {
      var lo, hi := g.value.0, g.value.1;
      NLNExact(w, p1, p2, lo);
      NLNExact(w, p1, p2, hi);
      LiangBarskyExact(w, p1, p2, lo);
      LiangBarskyExact(w, p1, p2, hi);
      if l.Some? {
        LiangBarskyExact(w, p1, p2, l.value.0);
        LiangBarskyExact(w, p1, p2, l.value.1);
        NLNExact(w, p1, p2, l.value.0);
        NLNExact(w, p1, p2, l.value.1);
      }
    } else if l.Some? && l.value.0 < l.value.1 {
      LiangBarskyExact(w, p1, p2, l.value.0);
      NLNExact(w, p1, p2, l.value.0);
    }
  }

  // ======================================================== Cohen–Sutherland

  /** The interval the Liang–Barsky fold settles on starts at u1 or at the
      ratio q / p of a test with p < 0 (a side the segment enters through),
      and ends at u2 or at the ratio of a test with p > 0. */
  lemma {:induction false} LBFoldBounds(ts: seq<(real, real)>, u1: real, u2: real)
    ensures LBFold(ts, u1, u2).Some? ==>
              var lo := LBFold(ts, u1, u2).value.0;
              lo == u1 || exists i :: 0 <= i < |ts| && ts[i].0 < 0.0 && lo == ts[i].1 / ts[i].0
    ensures LBFold(ts, u1, u2).Some? ==>
              var hi := LBFold(ts, u1, u2).value.1;
              hi == u2 || exists i :: 0 <= i < |ts| && ts[i].0 > 0.0 && hi == ts[i].1 / ts[i].0
    decreases |ts|
  {
    if ts != [] {
      var p, q, rest := ts[0].0, ts[0].1, ts[1..];
      var v1, v2 := u1, u2;
      if p < 0.0 {
        v1 := Max(u1, q / p);
      } else if p > 0.0 {
        v2 := Min(u2, q / p);
      }
      if p != 0.0 || q >= 0.0 {
        assert LBFold(ts, u1, u2) == LBFold(rest, v1, v2);
        LBFoldBounds(rest, v1, v2);
        var r := LBFold(rest, v1, v2);
        if r.Some? {
          if r.value.0 != v1 {
            var i :| 0 <= i < |rest| && rest[i].0 < 0.0 && r.value.0 == rest[i].1 / rest[i].0;
            assert ts[i + 1] == rest[i];
          }
          if r.value.1 != v2 {
            var i :| 0 <= i < |rest| && rest[i].0 > 0.0 && r.value.1 == rest[i].1 / rest[i].0;
            assert ts[i + 1] == rest[i];
          }
        }
      }
    }
  }

  /** cohen_sutherland orders the ends by x. */
  function CSOrdered(c1: Point2, c2: Point2): (Point2, Point2) {
    if c1.x > c2.x then (c2, c1) else (c1, c2)
  }

  /** The slope dy / dx of a segment that is neither vertical nor horizontal. */
  function CSSlope(p1: Point2, p2: Point2): (m: real)
    requires p2.x != p1.x && p2.y != p1.y
    ensures m != 0.0
  {
    var m := (p2.y - p1.y) / (p2.x - p1.x);
    assert m * (p2.x - p1.x) == p2.y - p1.y;
    m
  }

  /** The y where the segment's line meets the vertical line x (yE, yD). */
  function CSyAt(p1: Point2, p2: Point2, x: real): real
    requires p2.x != p1.x && p2.y != p1.y
  {
    CSSlope(p1, p2) * (x - p1.x) + p1.y
  }

  /** The x where the segment's line meets the horizontal line y (xF, xT). */
  function CSxAt(p1: Point2, p2: Point2, y: real): real
    requires p2.x != p1.x && p2.y != p1.y
  {
    (y - p1.y) / CSSlope(p1, p2) + p1.x
  }

  /** The side tests of the general case (a segment neither vertical nor
      horizontal, neither accepted nor rejected).  The two slots start as
      the ends; a side that rc0 records is clipped when the segment's line
      meets that side within the window's extent: the left side replaces the
      first slot, the right side the second, and a bottom or top crossing
      the slot the slope picks (xT > xF, i.e. rising).  chained is the
      source's elif: the right side is tried only when the left was not
      clipped, and the top only when the bottom was not. */
  function CSSlots(w: Window, p1: Point2, p2: Point2, rc0: bv4, chained: bool): (Point2, Point2)
    requires p2.x != p1.x && p2.y != p1.y
  {
    var yE, yD := CSyAt(p1, p2, w.xMin), CSyAt(p1, p2, w.xMax);
    var xT, xF := CSxAt(p1, p2, w.yMax), CSxAt(p1, p2, w.yMin);
    var left := rc0 & 1 != 0 && w.yMin <= yE <= w.yMax;
    var right := rc0 & 2 != 0 && w.yMin <= yD <= w.yMax && !(chained && left);
    var bottom := rc0 & 4 != 0 && w.xMin <= xF <= w.xMax;
    var top := rc0 & 8 != 0 && w.xMin <= xT <= w.xMax && !(chained && bottom);
    var a0 := if left then Point2(w.xMin, yE) else p1;
    var a1 := if right then Point2(w.xMax, yD) else p2;
    var b0 := if bottom && xT > xF then Point2(xF, w.yMin) else a0;
    var b1 := if bottom && !(xT > xF) then Point2(xF, w.yMin) else a1;
    var c0 := if top && !(xT > xF) then Point2(xT, w.yMax) else b0;
    var c1 := if top && xT > xF then Point2(xT, w.yMax) else b1;
    (c0, c1)
  }

  /** cohen_sutherland, with the side tests chained or not: ends inside are
      returned as given, ends beyond a common side give nothing, a vertical
      or horizontal segment is clamped to the window, and otherwise the
      slots of CSSlots are returned unless no side test changed them. */
  function CSClip(w: Window, c1: Point2, c2: Point2, chained: bool): (r: seq<Point2>)
    ensures r == [] || |r| == 2
  {
    var p1, p2 := CSOrdered(c1, c2).0, CSOrdered(c1, c2).1;
    var rc1, rc2 := Outcode(w, p1), Outcode(w, p2);
    var rc0 := rc1 | rc2;
    if rc0 == 0 then [c1, c2]
    else if rc1 & rc2 != 0 then []
    else if p2.x == p1.x && p2.y == p1.y then
      assert false; []
    else if p2.x == p1.x then
      [Point2(p1.x, Max(Min(p1.y, w.yMax), w.yMin)), Point2(p1.x, Max(Min(p2.y, w.yMax), w.yMin))]
    else if p2.y == p1.y then
      [Point2(Max(Min(p1.x, w.xMax), w.xMin), p1.y), Point2(Max(Min(p2.x, w.xMax), w.xMin), p1.y)]
    else
      var s := CSSlots(w, p1, p2, rc0, chained);
      if [s.0, s.1] == [p1, p2] then [] else [s.0, s.1]
  }

  /** cohen_sutherland exactly as written, with both elif chains. */
  function CohenSutherlandAsWritten(w: Window, c1: Point2, c2: Point2): (r: seq<Point2>)
    ensures r == [] || |r| == 2
  {
    CSClip(w, c1, c2, true)
  }

  /** cohen_sutherland with every recorded side tried. */
  function CohenSutherland(w: Window, c1: Point2, c2: Point2): (r: seq<Point2>)
    ensures r == [] || |r| == 2
  {
    CSClip(w, c1, c2, false)
  }

  /** The point where the segment's line meets the vertical line x is the
      point of the segment at parameter (x - p1.x) / dx. */
  lemma CSPointAtX(p1: Point2, p2: Point2, x: real)
    requires p2.x != p1.x && p2.y != p1.y
    ensures Lerp(p1, p2, (x - p1.x) / (p2.x - p1.x)) == Point2(x, CSyAt(p1, p2, x))
  {
    var t := (x - p1.x) / (p2.x - p1.x);
    PointAtRatio(p1.x, p1.y, p2.x, p2.y, x, t, CSSlope(p1, p2), CSyAt(p1, p2, x));
  }

  /** CSPointAtX on the coordinates: at t = (x - x1) / (x2 - x1) the
      segment is at x, and its other coordinate is the slope's line. */
  lemma PointAtRatio(x1: real, y1: real, x2: real, y2: real, x: real, t: real, s: real, v: real)
    requires x2 != x1 && t == (x - x1) / (x2 - x1) && s == (y2 - y1) / (x2 - x1) && v == s * (x - x1) + y1
    ensures x1 + t * (x2 - x1) == x && y1 + t * (y2 - y1) == v
  {
    CoordAtOwnRatio(x1, x2, x);
    CoordAtRatio(y1, y2, x1, x2, x);
  }

  /** The point where it meets the horizontal line y is the point of the
      segment at parameter (y - p1.y) / dy. */
  lemma CSPointAtY(p1: Point2, p2: Point2, y: real)
    requires p2.x != p1.x && p2.y != p1.y
    ensures Lerp(p1, p2, (y - p1.y) / (p2.y - p1.y)) == Point2(CSxAt(p1, p2, y), y)
  {
    var t := (y - p1.y) / (p2.y - p1.y);
    PointAtRatioOver(p1.x, p1.y, p2.x, p2.y, y, t, CSSlope(p1, p2), CSxAt(p1, p2, y));
  }

  /** CSPointAtY on the coordinates, by the inverse slope. */
  lemma PointAtRatioOver(x1: real, y1: real, x2: real, y2: real, y: real, t: real, s: real, v: real)
    requires x2 != x1 && y2 != y1 && t == (y - y1) / (y2 - y1) && s == (y2 - y1) / (x2 - x1) && s != 0.0
    requires v == (y - y1) / s + x1
    ensures x1 + t * (x2 - x1) == v && y1 + t * (y2 - y1) == y
  {
    CoordAtOwnRatio(y1, y2, y);
    CoordAtRatioOver(x1, x2, y1, y2, y);
  }

  /** The coordinate that fixes the parameter comes out as m. */
  lemma CoordAtOwnRatio(e1: real, e2: real, m: real)
    requires e2 != e1
    ensures e1 + (m - e1) / (e2 - e1) * (e2 - e1) == m
  {
    var k := (m - e1) / (e2 - e1);
    assert k * (e2 - e1) == m - e1;
  }

  /** The other coordinate at that parameter, by the slope. */
  lemma CoordAtRatio(c1: real, c2: real, e1: real, e2: real, m: real)
    requires e2 != e1
    ensures c1 + (m - e1) / (e2 - e1) * (c2 - c1) == (c2 - c1) / (e2 - e1) * (m - e1) + c1
  {
    RatioSwap(m - e1, c2 - c1, e2 - e1);
  }

  /** The other coordinate at that parameter, by the inverse slope. */
  lemma CoordAtRatioOver(c1: real, c2: real, e1: real, e2: real, m: real)
    requires e2 != e1 && c2 != c1
    ensures (e2 - e1) / (c2 - c1) != 0.0
    ensures c1 + (m - e1) / (e2 - e1) * (c2 - c1) == (m - e1) / ((e2 - e1) / (c2 - c1)) + c1
  {
    RatioOverRatio(m - e1, e2 - e1, c2 - c1);
  }

  /** (n / d) * e is (e / d) * n. */
  lemma RatioSwap(n: real, e: real, d: real)
    requires d != 0.0
    ensures (n / d) * e == (e / d) * n
  {
    var t, m := n / d, e / d;
    assert t * d == n;
    assert m * d == e;
    assert (t * e) * d == (t * d) * e;
    assert (m * n) * d == (m * d) * n;
    MulCancel(t * e, m * n, d);
  }

  /** (n / e) * d is n / (e / d). */
  lemma RatioOverRatio(n: real, e: real, d: real)
    requires d != 0.0 && e != 0.0
    ensures e / d != 0.0
    ensures (n / e) * d == n / (e / d)
  {
    var t, m := n / e, e / d;
    assert m * d == e;
    assert m != 0.0;
    var r := n / m;
    assert r * m == n;
    assert t * e == n;
    assert (t * d) * m == t * (m * d);
    MulCancel(t * d, r, m);
  }

  /** A nonzero factor cancels. */
  lemma MulCancel(a: real, b: real, d: real)
    requires d != 0.0 && a * d == b * d
    ensures a == b
  {
    assert (a - b) * d == 0.0;
  }

  /** With the ends ordered by x, xT > xF exactly when the segment rises. */
  lemma CSRising(w: Window, p1: Point2, p2: Point2)
    requires Proper(w) && p1.x < p2.x && p2.y != p1.y
    ensures CSxAt(p1, p2, w.yMax) > CSxAt(p1, p2, w.yMin) <==> p2.y > p1.y
  {
    var m := CSSlope(p1, p2);
    var h := w.yMax - w.yMin;
    assert m * (p2.x - p1.x) == p2.y - p1.y;
    assert CSxAt(p1, p2, w.yMax) - CSxAt(p1, p2, w.yMin) == (w.yMax - p1.y) / m - (w.yMin - p1.y) / m;
    assert (w.yMax - p1.y) / m - (w.yMin - p1.y) / m == h / m;
    assert (h / m) * m == h;
    if m > 0.0 {
      assert p2.y > p1.y;
    } else {
      assert p2.y < p1.y;
    }
  }

  /** A general-case segment whose slots some side test changed has a
      visible point: every crossing a test accepts is a window point of the
      segment. */
  lemma CSHitIsVisible(w: Window, p1: Point2, p2: Point2)
    requires Proper(w) && p1.x < p2.x && p2.y != p1.y
    requires Outcode(w, p1) & Outcode(w, p2) == 0
    requires CSSlots(w, p1, p2, Outcode(w, p1) | Outcode(w, p2), false) != (p1, p2)
    ensures exists u :: Visible(w, p1, p2, u)
  {
    var rc0 := Outcode(w, p1) | Outcode(w, p2);
    OutcodeBits(w, p1);
    OutcodeBits(w, p2);
    var dx, dy := p2.x - p1.x, p2.y - p1.y;
    var yE, yD := CSyAt(p1, p2, w.xMin), CSyAt(p1, p2, w.xMax);
    var xT, xF := CSxAt(p1, p2, w.yMax), CSxAt(p1, p2, w.yMin);
    if rc0 & 1 != 0 && w.yMin <= yE <= w.yMax {
      var t := (w.xMin - p1.x) / dx;
      UnitRatio(w.xMin - p1.x, dx);
      CSPointAtX(p1, p2, w.xMin);
      assert Visible(w, p1, p2, t);
    } else if rc0 & 2 != 0 && w.yMin <= yD <= w.yMax {
      var t := (w.xMax - p1.x) / dx;
      UnitRatio(w.xMax - p1.x, dx);
      CSPointAtX(p1, p2, w.xMax);
      assert Visible(w, p1, p2, t);
    } else if rc0 & 4 != 0 && w.xMin <= xF <= w.xMax {
      var t := (w.yMin - p1.y) / dy;
      CSPointAtY(p1, p2, w.yMin);
      UnitRatioEither(w.yMin - p1.y, dy);
      assert Visible(w, p1, p2, t);
    } else {
      var t := (w.yMax - p1.y) / dy;
      CSPointAtY(p1, p2, w.yMax);
      UnitRatioEither(w.yMax - p1.y, dy);
      assert Visible(w, p1, p2, t);
    }
  }

  /** A ratio n / d with d > 0 has the sign of n, and is below 1 only if n is
      below d; with d < 0 the other way round. */
  lemma RatioBounds(n: real, d: real, t: real)
    requires d != 0.0 && t == n / d
    ensures d > 0.0 && t > 0.0 ==> n > 0.0
    ensures d > 0.0 && t < 1.0 ==> n < d
    ensures d < 0.0 && t > 0.0 ==> n < 0.0
    ensures d < 0.0 && t < 1.0 ==> n > d
  {
    assert t * d == n;
    if d > 0.0 {
      if t > 0.0 { MulPos(t, d); }
      if t < 1.0 { MulPos(1.0 - t, d); }
    } else {
      if t > 0.0 { MulPos(t, -d); }
      if t < 1.0 { MulPos(1.0 - t, -d); }
    }
  }

  /** The visible part begins on the left side: the left test accepts. */
  lemma CSEntryLeft(w: Window, p1: Point2, p2: Point2, lo: real)
    requires Proper(w) && p1.x < p2.x && p2.y != p1.y
    requires lo > 0.0 && lo == (p1.x - w.xMin) / -(p2.x - p1.x) && InWindow(w, Lerp(p1, p2, lo))
    ensures p1.x < w.xMin && w.yMin <= CSyAt(p1, p2, w.xMin) <= w.yMax
  {
    DivScale(1.0, w.xMin - p1.x, p2.x - p1.x);
    CSPointAtX(p1, p2, w.xMin);
    RatioBounds(w.xMin - p1.x, p2.x - p1.x, lo);
  }

  /** The visible part begins on the bottom side of a rising segment: the
      bottom test accepts and puts its crossing in the first slot. */
  lemma CSEntryBottom(w: Window, p1: Point2, p2: Point2, lo: real)
    requires Proper(w) && p1.x < p2.x && p2.y > p1.y
    requires lo > 0.0 && lo == (p1.y - w.yMin) / -(p2.y - p1.y) && InWindow(w, Lerp(p1, p2, lo))
    ensures p1.y < w.yMin && w.xMin <= CSxAt(p1, p2, w.yMin) <= w.xMax
    ensures CSxAt(p1, p2, w.yMax) > CSxAt(p1, p2, w.yMin)
  {
    DivScale(1.0, w.yMin - p1.y, p2.y - p1.y);
    CSPointAtY(p1, p2, w.yMin);
    RatioBounds(w.yMin - p1.y, p2.y - p1.y, lo);
    CSRising(w, p1, p2);
  }

  /** The visible part begins on the top side of a falling segment: the
      top test accepts and puts its crossing in the first slot. */
  lemma CSEntryTop(w: Window, p1: Point2, p2: Point2, lo: real)
    requires Proper(w) && p1.x < p2.x && p2.y < p1.y
    requires lo > 0.0 && lo == (w.yMax - p1.y) / (p2.y - p1.y) && InWindow(w, Lerp(p1, p2, lo))
    ensures p1.y > w.yMax && w.xMin <= CSxAt(p1, p2, w.yMax) <= w.xMax
    ensures !(CSxAt(p1, p2, w.yMax) > CSxAt(p1, p2, w.yMin))
  {
    CSPointAtY(p1, p2, w.yMax);
    RatioBounds(w.yMax - p1.y, p2.y - p1.y, lo);
    CSRising(w, p1, p2);
  }

  /** The visible part ends on the right side: the right test accepts. */
  lemma CSExitRight(w: Window, p1: Point2, p2: Point2, hi: real)
    requires Proper(w) && p1.x < p2.x && p2.y != p1.y
    requires hi < 1.0 && hi == (w.xMax - p1.x) / (p2.x - p1.x) && InWindow(w, Lerp(p1, p2, hi))
    ensures p2.x > w.xMax && w.yMin <= CSyAt(p1, p2, w.xMax) <= w.yMax
  {
    CSPointAtX(p1, p2, w.xMax);
    RatioBounds(w.xMax - p1.x, p2.x - p1.x, hi);
  }

  /** The visible part ends on the bottom side of a falling segment: the
      bottom test accepts and puts its crossing in the second slot. */
  lemma CSExitBottom(w: Window, p1: Point2, p2: Point2, hi: real)
    requires Proper(w) && p1.x < p2.x && p2.y < p1.y
    requires hi < 1.0 && hi == (p1.y - w.yMin) / -(p2.y - p1.y) && InWindow(w, Lerp(p1, p2, hi))
    ensures p2.y < w.yMin && w.xMin <= CSxAt(p1, p2, w.yMin) <= w.xMax
    ensures !(CSxAt(p1, p2, w.yMax) > CSxAt(p1, p2, w.yMin))
  {
    DivScale(1.0, w.yMin - p1.y, p2.y - p1.y);
    CSPointAtY(p1, p2, w.yMin);
    RatioBounds(w.yMin - p1.y, p2.y - p1.y, hi);
    CSRising(w, p1, p2);
  }

  /** The visible part ends on the top side of a rising segment: the top
      test accepts and puts its crossing in the second slot. */
  lemma CSExitTop(w: Window, p1: Point2, p2: Point2, hi: real)
    requires Proper(w) && p1.x < p2.x && p2.y > p1.y
    requires hi < 1.0 && hi == (w.yMax - p1.y) / (p2.y - p1.y) && InWindow(w, Lerp(p1, p2, hi))
    ensures p2.y > w.yMax && w.xMin <= CSxAt(p1, p2, w.yMax) <= w.xMax
    ensures CSxAt(p1, p2, w.yMax) > CSxAt(p1, p2, w.yMin)
  {
    CSPointAtY(p1, p2, w.yMax);
    RatioBounds(w.yMax - p1.y, p2.y - p1.y, hi);
    CSRising(w, p1, p2);
  }

  /** The first slot of the general case ends in the window once the
      segment has a visible point: an end outside is replaced by the
      crossing of the side the visible part begins at. */
  lemma CSFirstSlot(w: Window, p1: Point2, p2: Point2)
    requires Proper(w) && p1.x < p2.x && p2.y != p1.y
    requires Outcode(w, p1) & Outcode(w, p2) == 0
    requires exists u :: Visible(w, p1, p2, u)
    ensures InWindow(w, CSSlots(w, p1, p2, Outcode(w, p1) | Outcode(w, p2), false).0)
  {
    if !InWindow(w, p1) {
      OutcodeBits(w, p1);
      var u :| Visible(w, p1, p2, u);
      LiangBarskyExact(w, p1, p2, u);
      var lo := LBRange(w, p1, p2).value.0;
      LiangBarskyExact(w, p1, p2, lo);
      LerpEnds(p1, p2);
      var ts := LBTerms(w, p1, p2);
      LBFoldBounds(ts, 0.0, 1.0);
      var i :| 0 <= i < |ts| && ts[i].0 < 0.0 && lo == ts[i].1 / ts[i].0;
      if i == 0 {
        CSEntryLeft(w, p1, p2, lo);
      } else if i == 2 {
        CSEntryBottom(w, p1, p2, lo);
      } else if i == 3 {
        CSEntryTop(w, p1, p2, lo);
      }
    }
  }

  /** The second slot likewise, with the side the visible part ends at. */
  lemma CSSecondSlot(w: Window, p1: Point2, p2: Point2)
    requires Proper(w) && p1.x < p2.x && p2.y != p1.y
    requires Outcode(w, p1) & Outcode(w, p2) == 0
    requires exists u :: Visible(w, p1, p2, u)
    ensures InWindow(w, CSSlots(w, p1, p2, Outcode(w, p1) | Outcode(w, p2), false).1)
  {
    if !InWindow(w, p2) {
      OutcodeBits(w, p2);
      var u :| Visible(w, p1, p2, u);
      LiangBarskyExact(w, p1, p2, u);
      var hi := LBRange(w, p1, p2).value.1;
      LiangBarskyExact(w, p1, p2, hi);
      LerpEnds(p1, p2);
      var ts := LBTerms(w, p1, p2);
      LBFoldBounds(ts, 0.0, 1.0);
      var i :| 0 <= i < |ts| && ts[i].0 > 0.0 && hi == ts[i].1 / ts[i].0;
      if i == 1 {
        CSExitRight(w, p1, p2, hi);
      } else if i == 2 {
        CSExitBottom(w, p1, p2, hi);
      } else if i == 3 {
        CSExitTop(w, p1, p2, hi);
      }
    }
  }

  /** The segment read backwards: parameter u from c1 is 1 - u from c2. */
  lemma LerpSwap(c1: Point2, c2: Point2, u: real)
    ensures Lerp(c2, c1, 1.0 - u) == Lerp(c1, c2, u)
  {
  }

  /** Both ends in the window: the input comes back unchanged and in its
      original order, whichever way the side tests are chained. */
  lemma CSAccept(w: Window, c1: Point2, c2: Point2, chained: bool)
    requires Proper(w) && InWindow(w, c1) && InWindow(w, c2)
    ensures CSClip(w, c1, c2, chained) == [c1, c2]
  {
    OutcodeBits(w, c1);
    OutcodeBits(w, c2);
  }

  /** Both ends beyond one side: nothing comes back, and indeed no point
      of the segment is in the window. */
  lemma CSReject(w: Window, c1: Point2, c2: Point2, chained: bool)
    requires Proper(w) && Outcode(w, c1) & Outcode(w, c2) != 0
    ensures CSClip(w, c1, c2, chained) == []
    ensures forall u :: !Visible(w, c1, c2, u)
  {
    OutcodeBits(w, c1);
    OutcodeBits(w, c2);
    var bit := FirstBit(Outcode(w, c1) & Outcode(w, c2));
    GapSign(w, bit, c1);
    GapSign(w, bit, c2);
    LerpEnds(c1, c2);
    forall u | 0.0 <= u <= 1.0 ensures !InWindow(w, Lerp(c1, c2, u)) {
      BetweenHidden(w, c1, c2, 0.0, 1.0, u, bit);
    }
  }

  /** A vertical or horizontal segment that is not rejected is clamped into
      the window coordinate-wise. */
  lemma CSClamped(w: Window, c1: Point2, c2: Point2, chained: bool)
    requires Proper(w) && Outcode(w, c1) & Outcode(w, c2) == 0
    requires !InWindow(w, c1) || !InWindow(w, c2)
    requires c1.x == c2.x || c1.y == c2.y
    ensures var p1, p2 := CSOrdered(c1, c2).0, CSOrdered(c1, c2).1;
            CSClip(w, c1, c2, chained) ==
              if p1.x == p2.x then
                [Point2(p1.x, Max(Min(p1.y, w.yMax), w.yMin)), Point2(p1.x, Max(Min(p2.y, w.yMax), w.yMin))]
              else
                [Point2(Max(Min(p1.x, w.xMax), w.xMin), p1.y), Point2(Max(Min(p2.x, w.xMax), w.xMin), p1.y)]
    ensures InWindow(w, CSClip(w, c1, c2, chained)[0]) && InWindow(w, CSClip(w, c1, c2, chained)[1])
  {
    OutcodeBits(w, c1);
    OutcodeBits(w, c2);
  }

  /** The general case: if a side test changed a slot, the segment has a
      visible point; and if the segment has a visible point, the slots end
      in the window and at least one of them changed. */
  lemma CSGeneral(w: Window, p1: Point2, p2: Point2)
    requires Proper(w) && p1.x < p2.x && p2.y != p1.y
    requires Outcode(w, p1) & Outcode(w, p2) == 0 && (Outcode(w, p1) | Outcode(w, p2)) != 0
    ensures var s := CSSlots(w, p1, p2, Outcode(w, p1) | Outcode(w, p2), false);
            (s != (p1, p2) <==> exists u :: Visible(w, p1, p2, u))
            && (s != (p1, p2) ==> InWindow(w, s.0) && InWindow(w, s.1))
  {
    var s := CSSlots(w, p1, p2, Outcode(w, p1) | Outcode(w, p2), false);
    if s != (p1, p2) {
      CSHitIsVisible(w, p1, p2);
    }
    if exists u :: Visible(w, p1, p2, u) {
      CSFirstSlot(w, p1, p2);
      CSSecondSlot(w, p1, p2);
      OutcodeBits(w, p1);
      OutcodeBits(w, p2);
    }
  }

  /** Cohen–Sutherland with every recorded side tried keeps exactly the
      segments that have a point in the window, and returns two window
      points for them. */
  lemma CohenSutherlandInWindow(w: Window, c1: Point2, c2: Point2)
    requires Proper(w)
    ensures var r := CohenSutherland(w, c1, c2);
            r != [] ==> InWindow(w, r[0]) && InWindow(w, r[1])
    ensures CohenSutherland(w, c1, c2) != [] <==> exists u :: Visible(w, c1, c2, u)
  {
    var p1, p2 := CSOrdered(c1, c2).0, CSOrdered(c1, c2).1;
    OutcodeBits(w, c1);
    OutcodeBits(w, c2);
    LerpEnds(c1, c2);
    if Outcode(w, c1) & Outcode(w, c2) != 0 {
      CSReject(w, c1, c2, false);
    } else if InWindow(w, c1) && InWindow(w, c2) {
      CSAccept(w, c1, c2, false);
      assert Visible(w, c1, c2, 0.0);
    } else if c1.x == c2.x || c1.y == c2.y {
      CSClamped(w, c1, c2, false);
      assert c1.x == c2.x || c1.y == c2.y;
      CSClampedVisible(w, c1, c2);
    } else {
      CSGeneral(w, p1, p2);
      var s := CSSlots(w, p1, p2, Outcode(w, p1) | Outcode(w, p2), false);
      assert ([s.0, s.1] == [p1, p2]) == (s == (p1, p2));
      CSSameVisible(w, c1, c2);
    }
  }

  /** Swapping the ends does not change whether a segment is visible. */
  lemma CSSameVisible(w: Window, c1: Point2, c2: Point2)
    ensures (exists u :: Visible(w, c1, c2, u)) <==>
            (exists u :: Visible(w, CSOrdered(c1, c2).0, CSOrdered(c1, c2).1, u))
  {
    var p1, p2 := CSOrdered(c1, c2).0, CSOrdered(c1, c2).1;
    if c1.x > c2.x {
      if u :| Visible(w, c1, c2, u) {
        LerpSwap(c1, c2, u);
        assert Visible(w, p1, p2, 1.0 - u);
      }
      if u :| Visible(w, p1, p2, u) {
        LerpSwap(c2, c1, u);
        assert Visible(w, c1, c2, 1.0 - u);
      }
    }
  }

  /** A coordinate that is not below lo at both ends nor above hi at both
      ends lies within [lo, hi] at some parameter of [0, 1]. */
  lemma StraddleParam(a: real, b: real, lo: real, hi: real) returns (u: real)
    requires lo < hi && !(a < lo && b < lo) && !(a > hi && b > hi)
    ensures 0.0 <= u <= 1.0 && lo <= a + u * (b - a) <= hi
  {
    if lo <= a <= hi {
      u := 0.0;
    } else if lo <= b <= hi {
      u := 1.0;
    } else if a < lo {
      u := (lo - a) / (b - a);
      UnitRatio(lo - a, b - a);
      assert u * (b - a) == lo - a;
    } else {
      u := (hi - a) / (b - a);
      UnitRatioEither(hi - a, b - a);
      assert u * (b - a) == hi - a;
    }
  }

  /** A vertical or horizontal segment that is not rejected has a visible
      point: its fixed coordinate is within the window's extent, and the
      other one meets the window's range. */
  lemma CSClampedVisible(w: Window, c1: Point2, c2: Point2)
    requires Proper(w) && Outcode(w, c1) & Outcode(w, c2) == 0
    requires c1.x == c2.x || c1.y == c2.y
    ensures exists u :: Visible(w, c1, c2, u)
  {
    OutcodeBits(w, c1);
    OutcodeBits(w, c2);
    if c1.x == c2.x {
      var u := StraddleParam(c1.y, c2.y, w.yMin, w.yMax);
      assert Visible(w, c1, c2, u);
    } else {
      var u := StraddleParam(c1.x, c2.x, w.xMin, w.xMax);
      assert Visible(w, c1, c2, u);
    }
  }

  /** An example of the elif chains: on the normalized window
      the segment (-2, 0.5)-(2, 0.6) is cut on the left only, so its right
      end (2, 0.6), outside the window, comes back unclipped; with every
      side tried it is cut on both sides. */
  lemma CohenSutherlandAsWrittenLeavesEnd()
    ensures var r := CohenSutherlandAsWritten(SCN, Point2(-2.0, 0.5), Point2(2.0, 0.6));
            r == [Point2(-1.0, 0.525), Point2(2.0, 0.6)] && !InWindow(SCN, r[1])
    ensures CohenSutherland(SCN, Point2(-2.0, 0.5), Point2(2.0, 0.6)) ==
            [Point2(-1.0, 0.525), Point2(1.0, 0.575)]
  {
    var p1, p2 := Point2(-2.0, 0.5), Point2(2.0, 0.6);
    assert CSSlope(p1, p2) == 0.025;
    assert CSyAt(p1, p2, -1.0) == 0.525;
    assert CSyAt(p1, p2, 1.0) == 0.575;
    assert Outcode(SCN, p1) == 1 && Outcode(SCN, p2) == 2;
  }
}
