/** The clip window and the small geometric predicates the clipping
    algorithms share: inclusive point membership, outcodes, the
    interpolation of a segment and the window-edge helpers of the polygon
    clipper. */
module ClipGeometry {
  import opened LinAlg
  import opened Wrappers

  /** An axis-aligned window [xMin, xMax] x [yMin, yMax]. */
  datatype Window = Window(xMin: real, yMin: real, xMax: real, yMax: real)

  /** Every window the clipper can hold has min < max on both axes. */
  predicate Proper(w: Window) {
    w.xMin < w.xMax && w.yMin < w.yMax
  }

  /** The three named presets: normalized ("SCN"), unit ("NDC") and device ("DC"). */
  const SCN := Window(-1.0, -1.0, 1.0, 1.0)
  const NDC := Window(0.0, 0.0, 1.0, 1.0)
  const DC := Window(0.0, 0.0, 800.0, 600.0)

  /** The preset called name, if name is one. */
  function Preset(name: string): (r: Option<Window>)
    ensures r.Some? <==> name in {"SCN", "NDC", "DC"}
    ensures r.Some? ==> Proper(r.value)
  {
    if name == "SCN" then Some(SCN)
    else if name == "NDC" then Some(NDC)
    else if name == "DC" then Some(DC)
    else None
  }

  /** Inclusive membership, the test of clip_point. */
  predicate InWindow(w: Window, p: Point2) {
    w.xMin <= p.x <= w.xMax && w.yMin <= p.y <= w.yMax
  }

  function Min(a: real, b: real): real { if a <= b then a else b }
  function Max(a: real, b: real): real { if a >= b then a else b }

  /** The point at parameter u of the segment from p1 to p2, written as the
      clippers compute it: p1 + u * (p2 - p1). */
  function Lerp(p1: Point2, p2: Point2, u: real): Point2 {
    Point2(p1.x + u * (p2.x - p1.x), p1.y + u * (p2.y - p1.y))
  }

  /** The parameters in [0, 1] whose point lies in the window: the part of
      the segment that a line clipper should keep. */
  ghost predicate Visible(w: Window, p1: Point2, p2: Point2, u: real) {
    0.0 <= u <= 1.0 && InWindow(w, Lerp(p1, p2, u))
  }

  // ---------------------------------------------------------------- outcodes

  /** The 4-bit region code: 1 left, 2 right, 4 below, 8 above.  As in the
      source, left is checked before right and below before above. */
  function Outcode(w: Window, p: Point2): bv4 {
    (if p.x < w.xMin then 1 else if p.x > w.xMax then 2 else 0)
    | (if p.y < w.yMin then 4 else if p.y > w.yMax then 8 else 0)
  }

  /** On a proper window each bit says exactly that the point is beyond
      that side, and code 0 is inclusive membership. */
  lemma OutcodeBits(w: Window, p: Point2)
    requires Proper(w)
    ensures (Outcode(w, p) & 1 != 0) <==> p.x < w.xMin
    ensures (Outcode(w, p) & 2 != 0) <==> p.x > w.xMax
    ensures (Outcode(w, p) & 4 != 0) <==> p.y < w.yMin
    ensures (Outcode(w, p) & 8 != 0) <==> p.y > w.yMax
    ensures Outcode(w, p) == 0 <==> InWindow(w, p)
  {
  }

  /** A point between two points is not beyond any side that both of them
      are within: its outcode has no bit that neither endpoint has. */
  lemma OutcodeOfLerp(w: Window, p1: Point2, p2: Point2, t: real)
    requires Proper(w) && 0.0 <= t <= 1.0
    ensures Outcode(w, Lerp(p1, p2, t)) & !(Outcode(w, p1) | Outcode(w, p2)) == 0
  {
    var q := Lerp(p1, p2, t);
    BetweenBounds(p1.x, p2.x, t, w.xMin, w.xMax);
    BetweenBounds(p1.y, p2.y, t, w.yMin, w.yMax);
    OutcodeBits(w, p1);
    OutcodeBits(w, p2);
    OutcodeBits(w, q);
    NoNewBits(Outcode(w, q), Outcode(w, p1), Outcode(w, p2));
  }

  /** A code each of whose bits is set in a or in b has no bit outside
      a | b. */
  lemma NoNewBits(c: bv4, a: bv4, b: bv4)
    requires c & 1 != 0 ==> a & 1 != 0 || b & 1 != 0
    requires c & 2 != 0 ==> a & 2 != 0 || b & 2 != 0
    requires c & 4 != 0 ==> a & 4 != 0 || b & 4 != 0
    requires c & 8 != 0 ==> a & 8 != 0 || b & 8 != 0
    ensures c & !(a | b) == 0
  {
  }

  /** a + t (b - a) for t in [0, 1] stays within any bound both a and b meet. */
  lemma BetweenBounds(a: real, b: real, t: real, lo: real, hi: real)
    requires 0.0 <= t <= 1.0
    ensures a >= lo && b >= lo ==> a + t * (b - a) >= lo
    ensures a <= hi && b <= hi ==> a + t * (b - a) <= hi
  {
    if b >= a {
      MulNonneg(t, b - a);
      MulNonneg(1.0 - t, b - a);
    } else {
      MulNonneg(t, a - b);
      MulNonneg(1.0 - t, a - b);
    }
  }

  lemma MulNonneg(x: real, y: real)
    requires x >= 0.0 && y >= 0.0
    ensures x * y >= 0.0
  {
  }

  /** Number of bits set in an outcode. */
  function Bits(c: bv4): (n: nat)
    ensures n <= 4
    ensures n == 0 <==> c == 0
  {
    (if c & 1 != 0 then 1 else 0) + (if c & 2 != 0 then 1 else 0)
    + (if c & 4 != 0 then 1 else 0) + (if c & 8 != 0 then 1 else 0)
  }

  /** Clearing a bit of c and adding none that c lacks leaves fewer bits. */
  lemma BitsDecrease(a: bv4, c: bv4, b: bv4)
    requires b in {1, 2, 4, 8} && c & b != 0
    requires a & !c == 0 && a & b == 0
    ensures Bits(a) < Bits(c)
  {
  }

  /** The lowest outcode bit set in c, the side the clippers treat first. */
  function FirstBit(c: bv4): (b: bv4)
    requires c != 0
    ensures b in {1, 2, 4, 8} && c & b != 0
  {
    if c & 1 != 0 then 1 else if c & 2 != 0 then 2 else if c & 4 != 0 then 4 else 8
  }

  /** How far p is inside the side of the window that outcode bit b
      guards; negative exactly when p is beyond that side. */
  function Gap(w: Window, b: bv4, p: Point2): real
    requires b in {1, 2, 4, 8}
  {
    if b == 1 then p.x - w.xMin
    else if b == 2 then w.xMax - p.x
    else if b == 4 then p.y - w.yMin
    else w.yMax - p.y
  }

  lemma GapSign(w: Window, b: bv4, p: Point2)
    requires Proper(w) && b in {1, 2, 4, 8}
    ensures (Outcode(w, p) & b != 0) <==> Gap(w, b, p) < 0.0
  {
    OutcodeBits(w, p);
  }

  /** Inclusive membership is exactly "no gap is negative". */
  lemma InWindowGaps(w: Window, p: Point2)
    ensures InWindow(w, p) <==>
            Gap(w, 1, p) >= 0.0 && Gap(w, 2, p) >= 0.0 && Gap(w, 4, p) >= 0.0 && Gap(w, 8, p) >= 0.0
  {
  }

  /** Gaps are affine along a segment. */
  lemma GapOfLerp(w: Window, b: bv4, p1: Point2, p2: Point2, t: real)
    requires b in {1, 2, 4, 8}
    ensures Gap(w, b, Lerp(p1, p2, t)) == Gap(w, b, p1) + t * (Gap(w, b, p2) - Gap(w, b, p1))
  {
  }

  /** A point of a sub-segment is a point of the whole segment, at the
      corresponding parameter. */
  lemma LerpOfLerp(a: Point2, b: Point2, s1: real, s2: real, t: real)
    ensures Lerp(Lerp(a, b, s1), Lerp(a, b, s2), t) == Lerp(a, b, s1 + t * (s2 - s1))
  {
    var r, q := Lerp(Lerp(a, b, s1), Lerp(a, b, s2), t), Lerp(a, b, s1 + t * (s2 - s1));
    LerpCoordOfLerp(a.x, b.x, s1, s2, t);
    LerpCoordOfLerp(a.y, b.y, s1, s2, t);
    assert r.x == q.x && r.y == q.y;
  }

  /** LerpOfLerp along one coordinate. */
  lemma LerpCoordOfLerp(c: real, e: real, s1: real, s2: real, t: real)
    ensures (c + s1 * (e - c)) + t * ((c + s2 * (e - c)) - (c + s1 * (e - c)))
            == c + (s1 + t * (s2 - s1)) * (e - c)
  {
    var d := e - c;
    assert (c + s2 * d) - (c + s1 * d) == (s2 - s1) * d;
    assert t * ((s2 - s1) * d) == (t * (s2 - s1)) * d;
    assert s1 * d + (t * (s2 - s1)) * d == (s1 + t * (s2 - s1)) * d;
  }

  lemma LerpEnds(a: Point2, b: Point2)
    ensures Lerp(a, b, 0.0) == a && Lerp(a, b, 1.0) == b
  {
  }

  /** The parameter where a segment whose ends lie on opposite sides of a
      line (one strictly beyond it) meets that line, given the two signed
      distances g1 and g2 of its ends, lies in [0, 1]. */
  lemma CutParamInUnit(g1: real, g2: real)
    requires (g1 < 0.0 <= g2) || (g2 < 0.0 <= g1)
    ensures g1 - g2 != 0.0
    ensures 0.0 <= g1 / (g1 - g2) <= 1.0
  {
    if g1 < 0.0 {
      UnitRatioNeg(g1, g1 - g2);
    } else {
      UnitRatio(g1, g1 - g2);
    }
  }

  lemma UnitRatio(a: real, b: real)
    requires 0.0 <= a <= b && b > 0.0
    ensures 0.0 <= a / b <= 1.0
  {
    assert a / b * b == a;
  }

  /** A product of positives is positive. */
  lemma MulPos(x: real, y: real)
    requires x > 0.0 && y > 0.0
    ensures x * y > 0.0
  {
  }

  /** n / d lies in [0, 1] when n lies between 0 and d, on either side. */
  lemma UnitRatioEither(n: real, d: real)
    requires d != 0.0 && ((0.0 <= n <= d) || (d <= n <= 0.0))
    ensures 0.0 <= n / d <= 1.0
  {
    if d > 0.0 {
      UnitRatio(n, d);
    } else {
      UnitRatioNeg(n, d);
    }
  }

  /** UnitRatio for a negative denominator. */
  lemma UnitRatioNeg(n: real, d: real)
    requires d < 0.0 && d <= n <= 0.0
    ensures 0.0 <= n / d <= 1.0
  {
    var q := n / d;
    assert q * d == n;
    if q < 0.0 {
      MulPos(-q, -d);
    }
    if q > 1.0 {
      MulPos(q - 1.0, -d);
    }
  }

  // ------------------------------------------------- polygon-clipper helpers

  /** A window edge or polygon edge as a pair of points. */
  type Edge = (Point2, Point2)

  /** The four window edges, counter-clockwise from the bottom-left corner. */
  function WindowEdges(w: Window): (es: seq<Edge>)
    ensures |es| == 4
    ensures forall i :: 0 <= i < 4 ==> es[i].1 == es[(i + 1) % 4].0
  {
    var a := Point2(w.xMin, w.yMin);
    var b := Point2(w.xMax, w.yMin);
    var c := Point2(w.xMax, w.yMax);
    var d := Point2(w.xMin, w.yMax);
    [(a, b), (b, c), (c, d), (d, a)]
  }

  /** The signed area term the inside test compares: positive to the left
      of the directed edge, zero on its line. */
  function Side(p: Point2, e: Edge): real {
    (e.1.x - e.0.x) * (p.y - e.0.y) - (e.1.y - e.0.y) * (p.x - e.0.x)
  }

  /** __inside: p is STRICTLY left of the directed edge; a point on the
      edge's line is outside. */
  predicate Inside(p: Point2, e: Edge)
  {
    (e.1.x - e.0.x) * (p.y - e.0.y) > (e.1.y - e.0.y) * (p.x - e.0.x)
  }

  lemma InsideIsPositiveSide(p: Point2, e: Edge)
    ensures Inside(p, e) <==> Side(p, e) > 0.0
  {
  }

  /** Side is affine along a segment. */
  lemma SideOfLerp(p1: Point2, p2: Point2, t: real, e: Edge)
    ensures Side(Lerp(p1, p2, t), e) == Side(p1, e) + t * (Side(p2, e) - Side(p1, e))
  {
  }

  /** __compute_intersection: the crossing of the line p1p2 with the line of
      e by the determinant method; None when the lines are parallel. */
  function ComputeIntersection(p1: Point2, p2: Point2, e: Edge): (r: Option<Point2>)
    ensures r.None? <==> Side(p1, e) == Side(p2, e)
    ensures r.Some? ==> Side(r.value, e) == 0.0
    ensures r.Some? ==> var t := Side(p1, e) / (Side(p1, e) - Side(p2, e));
                        r.value == Lerp(p1, p2, t)
  {
    var dxp := p1.x - p2.x;
    var dyp := p1.y - p2.y;
    var dxe := e.0.x - e.1.x;
    var dye := e.0.y - e.1.y;
    var den := dxp * dye - dyp * dxe;
    assert den == Side(p1, e) - Side(p2, e);
    if den == 0.0 then None
    else
      var t := ((p1.x - e.0.x) * dye - (p1.y - e.0.y) * dxe) / den;
      assert t == Side(p1, e) / den;
      var q := Point2(p1.x - dxp * t, p1.y - dyp * t);
      assert q == Lerp(p1, p2, t);
      SideOfLerp(p1, p2, t, e);
      assert t * den == Side(p1, e);
      Some(q)
  }

  /** __project_to_window_edge: clamp each coordinate into the edge's
      bounding range. */
  function ProjectToWindowEdge(p: Point2, e: Edge): (r: Point2)
    ensures Min(e.0.x, e.1.x) <= r.x <= Max(e.0.x, e.1.x)
    ensures Min(e.0.y, e.1.y) <= r.y <= Max(e.0.y, e.1.y)
    ensures Min(e.0.x, e.1.x) <= p.x <= Max(e.0.x, e.1.x) ==> r.x == p.x
    ensures Min(e.0.y, e.1.y) <= p.y <= Max(e.0.y, e.1.y) ==> r.y == p.y
  {
    var ex1, ex2 := Min(e.0.x, e.1.x), Max(e.0.x, e.1.x);
    var ey1, ey2 := Min(e.0.y, e.1.y), Max(e.0.y, e.1.y);
    Point2(Min(Max(p.x, ex1), ex2), Min(Max(p.y, ey1), ey2))
  }
}
