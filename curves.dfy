/** The two curve generators: the cubic Bezier curve, sampled 100 times per
    segment, and the uniform cubic B-spline curve, produced by forward
    differences in 10 steps per window. Both work on the projected control
    points, of which only x and y are read. */
module Curves {
  import opened LinAlg
  import opened Cubic

  /** The x values of four control points, as a column. */
  function Xs(g: seq<Point2>): Vec4
    requires |g| == 4
  {
    Vec4(g[0].x, g[1].x, g[2].x, g[3].x)
  }

  /** The y values of four control points, as a column. */
  function Ys(g: seq<Point2>): Vec4
    requires |g| == 4
  {
    Vec4(g[0].y, g[1].y, g[2].y, g[3].y)
  }

  // ---------------------------------------------------------------- Bezier

  /** Samples per Bezier segment (`point_number`). */
  const BezierSamples: nat := 100

  /** The point T . MB . G of the segment with control points g at t. */
  function BezierPoint(g: seq<Point2>, t: real): Point2
    requires |g| == 4
  {
    var tmb := VecMat(Powers(t), BezierBasis);
    Point2(Dot(tmb, Xs(g)), Dot(tmb, Ys(g)))
  }

  /** One segment: BezierPoint at the 100 evenly spaced t = k / 99 (`np.linspace(0, 1, 100)`). */
  function BezierPiece(g: seq<Point2>): seq<Point2>
    requires |g| == 4
  {
    seq(BezierSamples, k requires 0 <= k < BezierSamples => BezierPoint(g, Spaced(k, 99)))
  }

  /** The number of iterations of `range(0, N - 2 - (N - 1) % 3, 3)`. */
  function Segments(n: int): nat {
    if n < 4 then 0 else (n - 1) / 3
  }

  /** The first j segments, the segment i starting at control point 3 i. */
  function BezierUpTo(cps: seq<Point2>, j: nat): seq<Point2>
    requires j == 0 || 3 * j + 1 <= |cps|
  {
    if j == 0 then [] else BezierUpTo(cps, j - 1) + BezierPiece(cps[3 * (j - 1) .. 3 * (j - 1) + 4])
  }

  lemma SegmentsFit(n: int)
    ensures Segments(n) == 0 || 3 * Segments(n) + 1 <= n
  {
  }

  /** The whole Bezier curve of a control polygon. */
  function BezierCurve(cps: seq<Point2>): seq<Point2> {
    SegmentsFit(|cps|);
    BezierUpTo(cps, Segments(|cps|))
  }

  /** The loop bound of `generate_curve`: segment start 3 j is below
      N - 2 - (N - 1) % 3 exactly when j is below Segments(N), so the starts
      are 0, 3, 6, ... and every 4-point window is in bounds. */
  lemma LoopBound(n: int, j: nat)
    ensures 3 * j < n - 2 - (n - 1) % 3 <==> j < Segments(n)
  {
    var q, r := (n - 1) / 3, (n - 1) % 3;
    assert n - 1 == 3 * q + r && 0 <= r < 3;
  }

  /** `__calculate_curve_piece`. */
  method CalculateCurvePiece(g: seq<Point2>) returns (subCurve: seq<Point2>)
    requires |g| == 4
    ensures subCurve == BezierPiece(g)
  {
    subCurve := [];
    var k := 0;
    while k < BezierSamples
      invariant 0 <= k <= BezierSamples
      invariant subCurve == BezierPiece(g)[..k]
    {
      var t := Spaced(k, 99);
      var tmb := VecMat(Powers(t), BezierBasis);
      var x := Dot(tmb, Xs(g));
      var y := Dot(tmb, Ys(g));
      subCurve := subCurve + [Point2(x, y)];
      k := k + 1;
    }
  }

  /** `generate_curve` of the Bezier curve. */
  method GenerateBezierCurve(cps: seq<Point2>) returns (curvePieces: seq<Point2>)
    ensures curvePieces == BezierCurve(cps)
  {
    curvePieces := [];
    var n := |cps|;
    SegmentsFit(n);
    var i := 0;
    LoopBound(n, 0);
    while i < n - 2 - (n - 1) % 3
      invariant i % 3 == 0 && 0 <= i / 3 <= Segments(n)
      invariant 3 * Segments(n) < n - 2 - (n - 1) % 3 <==> Segments(n) < Segments(n)
      invariant i < n - 2 - (n - 1) % 3 <==> i / 3 < Segments(n)
      invariant curvePieces == BezierUpTo(cps, i / 3)
    {
      var piece := CalculateCurvePiece(cps[i .. i + 4]);
      curvePieces := curvePieces + piece;
      i := i + 3;
      LoopBound(n, i / 3);
    }
  }

  lemma DotFirst(b: Vec4, v: Vec4)
    requires b == Vec4(1.0, 0.0, 0.0, 0.0)
    ensures Dot(b, v) == v.x
  {
  }

  lemma DotLast(b: Vec4, v: Vec4)
    requires b == Vec4(0.0, 0.0, 0.0, 1.0)
    ensures Dot(b, v) == v.w
  {
  }

  /** A segment passes through its first control point at t = 0 and its
      last at t = 1. */
  lemma BezierPointStart(g: seq<Point2>, t: real)
    requires |g| == 4 && t == 0.0
    ensures BezierPoint(g, t) == g[0]
  {
    BezierBasisStart();
    DotFirst(VecMat(Powers(0.0), BezierBasis), Xs(g));
    DotFirst(VecMat(Powers(0.0), BezierBasis), Ys(g));
  }

  lemma BezierPointEnd(g: seq<Point2>, t: real)
    requires |g| == 4 && t == 1.0
    ensures BezierPoint(g, t) == g[3]
  {
    BezierBasisEnd();
    DotLast(VecMat(Powers(1.0), BezierBasis), Xs(g));
    DotLast(VecMat(Powers(1.0), BezierBasis), Ys(g));
  }

  /** Every segment starts at its first control point ... */
  lemma BezierPieceStart(g: seq<Point2>)
    requires |g| == 4
    ensures |BezierPiece(g)| == 100 && BezierPiece(g)[0] == g[0]
  {
    assert BezierPiece(g)[0] == BezierPoint(g, Spaced(0, 99));
    BezierPointStart(g, Spaced(0, 99));
  }

  /** ... and ends at its last. */
  lemma BezierPieceEnd(g: seq<Point2>)
    requires |g| == 4
    ensures |BezierPiece(g)| == 100 && BezierPiece(g)[99] == g[3]
  {
    assert BezierPiece(g)[99] == BezierPoint(g, Spaced(99, 99));
    BezierPointEnd(g, Spaced(99, 99));
  }

  /** The curve has 100 points per segment, and point 100 j + k is segment
      j sampled at t = k / 99. */
  lemma {:induction false} BezierUpToSamples(cps: seq<Point2>, j: nat)
    requires j == 0 || 3 * j + 1 <= |cps|
    ensures |BezierUpTo(cps, j)| == 100 * j
    ensures forall n :: 0 <= n < 100 * j ==>
      BezierUpTo(cps, j)[n] == BezierPiece(cps[3 * (n / 100) .. 3 * (n / 100) + 4])[n % 100]
  {
    if j > 0 {
      BezierUpToSamples(cps, j - 1);
      var prev := BezierUpTo(cps, j - 1);
      var piece := BezierPiece(cps[3 * (j - 1) .. 3 * (j - 1) + 4]);
      assert BezierUpTo(cps, j) == prev + piece;
      forall n | 100 * (j - 1) <= n < 100 * j
        ensures BezierUpTo(cps, j)[n] == BezierPiece(cps[3 * (n / 100) .. 3 * (n / 100) + 4])[n % 100]
      {
        assert n / 100 == j - 1 && n % 100 == n - |prev|;
      }
    }
  }

  /** Fewer than four control points give no curve; otherwise there are
      (N - 1) div 3 segments of 100 points each, point 100 j + k being
      segment j (control points 3 j .. 3 j + 3) at t = k / 99. */
  lemma BezierCurveSamples(cps: seq<Point2>)
    ensures |cps| < 4 ==> BezierCurve(cps) == []
    ensures |BezierCurve(cps)| == 100 * Segments(|cps|)
    ensures |cps| >= 4 ==> Segments(|cps|) == (|cps| - 1) / 3
    ensures Segments(|cps|) > 0 ==> 3 * (Segments(|cps|) - 1) + 4 <= |cps|
    ensures forall n :: 0 <= n < |BezierCurve(cps)| ==>
      BezierCurve(cps)[n] == BezierPoint(cps[3 * (n / 100) .. 3 * (n / 100) + 4], Spaced(n % 100, 99))
  {
    SegmentsFit(|cps|);
    BezierUpToSamples(cps, Segments(|cps|));
    if |cps| >= 4 {
      assert 3 * ((|cps| - 1) / 3) <= |cps| - 1;
    }
  }

  /** One point of the curve, as a point of its segment. */
  lemma BezierCurveAt(cps: seq<Point2>, j: nat, k: nat)
    requires j < Segments(|cps|) && k < 100
    ensures 3 * j + 4 <= |cps|
    ensures |BezierCurve(cps)| == 100 * Segments(|cps|)
    ensures BezierCurve(cps)[100 * j + k] == BezierPiece(cps[3 * j .. 3 * j + 4])[k]
  {
    SegmentsFit(|cps|);
    BezierUpToSamples(cps, Segments(|cps|));
    var n := 100 * j + k;
    assert n / 100 == j && n % 100 == k;
  }

  /** Consecutive segments join: the last point of segment j and the first
      point of segment j + 1 are both control point 3 j + 3. */
  lemma BezierSegmentsJoin(cps: seq<Point2>, j: nat)
    requires j + 1 < Segments(|cps|)
    ensures |BezierCurve(cps)| == 100 * Segments(|cps|)
    ensures BezierCurve(cps)[100 * j + 99] == cps[3 * j + 3]
    ensures BezierCurve(cps)[100 * (j + 1)] == cps[3 * j + 3]
  {
    BezierSegmentLast(cps, j);
    BezierSegmentFirst(cps, j + 1);
  }

  /** The last point of segment j is control point 3 j + 3. */
  lemma BezierSegmentLast(cps: seq<Point2>, j: nat)
    requires j < Segments(|cps|)
    ensures |BezierCurve(cps)| == 100 * Segments(|cps|)
    ensures BezierCurve(cps)[100 * j + 99] == cps[3 * j + 3]
  {
    var g := cps[3 * j .. 3 * j + 4];
    assert 3 * j + 4 <= |cps| by { BezierCurveAt(cps, j, 99); }
    assert g[3] == cps[3 * j + 3];
    BezierPieceEnd(g);
    BezierCurveAt(cps, j, 99);
  }

  /** The first point of segment j is control point 3 j. */
  lemma BezierSegmentFirst(cps: seq<Point2>, j: nat)
    requires j < Segments(|cps|)
    ensures |BezierCurve(cps)| == 100 * Segments(|cps|)
    ensures BezierCurve(cps)[100 * j] == cps[3 * j]
  {
    var g := cps[3 * j .. 3 * j + 4];
    assert 3 * j + 4 <= |cps| by { BezierCurveAt(cps, j, 0); }
    assert g[0] == cps[3 * j];
    BezierPieceStart(g);
    BezierCurveAt(cps, j, 0);
  }

  /** Control points after the last complete segment are never read: the
      curve of the first 3 S + 1 points is the same curve. */
  lemma {:induction false} BezierUpToPrefix(cps: seq<Point2>, j: nat, m: nat)
    requires 3 * j + 1 <= m <= |cps|
    ensures BezierUpTo(cps, j) == BezierUpTo(cps[..m], j)
  {
    if j > 0 {
      BezierUpToPrefix(cps, j - 1, m);
      assert cps[..m][3 * (j - 1) .. 3 * (j - 1) + 4] == cps[3 * (j - 1) .. 3 * (j - 1) + 4];
    }
  }

  lemma BezierIgnoresTail(cps: seq<Point2>)
    requires |cps| >= 4
    ensures BezierCurve(cps) == BezierCurve(cps[..3 * Segments(|cps|) + 1])
  {
    var s := Segments(|cps|);
    assert Segments(3 * s + 1) == s;
    BezierUpToPrefix(cps, s, 3 * s + 1);
  }

  // -------------------------------------------------------------- B-spline

  /** The parameter step `delta` and the number of steps int(1 / delta). */
  const Delta: real := 0.1
  const Steps: nat := 10

  /** The cubic coefficients MBS . g of a window, for x and for y. */
  function SplineX(g: seq<Point2>): Vec4
    requires |g| == 4
  {
    MatVec(SplineBasis, Xs(g))
  }

  function SplineY(g: seq<Point2>): Vec4
    requires |g| == 4
  {
    MatVec(SplineBasis, Ys(g))
  }

  /** The reference definition of one window: its cubic evaluated directly
      at t = k / 10 for k = 0 .. 10. */
  function SplineWindow(g: seq<Point2>): seq<Point2>
    requires |g| == 4
  {
    seq(Steps + 1, k requires 0 <= k <= Steps =>
      Point2(Eval(SplineX(g), k as real / 10.0), Eval(SplineY(g), k as real / 10.0)))
  }

  /** The windows 0 .. i - 1, window w being control points w .. w + 3. */
  function SplineUpTo(cps: seq<Point2>, i: nat): seq<Point2>
    requires i == 0 || i + 3 <= |cps|
  {
    if i == 0 then [] else SplineUpTo(cps, i - 1) + SplineWindow(cps[i - 1 .. i + 3])
  }

  /** The number of windows, the length of `range(len(points) - 3)`. */
  function Windows(n: int): nat {
    if n < 4 then 0 else n - 3
  }

  function BSplineCurve(cps: seq<Point2>): seq<Point2> {
    SplineUpTo(cps, Windows(|cps|))
  }

  /** Forward differencing a window with step 1 / 10 yields the directly
      evaluated window. */
  lemma FwdDiffWindow(g: seq<Point2>, points: seq<Point2>)
    requires |g| == 4
    requires |points| == Steps + 1
    requires forall k :: 0 <= k <= Steps ==>
      points[k] == Point2(Accumulated(MatVec(DeltaMatrix(Delta), SplineX(g)), k),
                          Accumulated(MatVec(DeltaMatrix(Delta), SplineY(g)), k))
    ensures points == SplineWindow(g)
  {
    forall k | 0 <= k <= Steps
      ensures points[k] == SplineWindow(g)[k]
    {
      AccumulatedEvaluates(SplineX(g), Delta, k);
      AccumulatedEvaluates(SplineY(g), Delta, k);
      assert k as real * Delta == k as real / 10.0;
    }
  }

  /** `generate_curve` of the B-spline curve: for each window, the
      coefficients MBS . g, the start differences E . c, and the
      forward-difference loop. */
  method GenerateBSplineCurve(cps: seq<Point2>) returns (points: seq<Point2>)
    ensures points == BSplineCurve(cps)
  {
    points := [];
    var i := 0;
    while i < |cps| - 3
      invariant 0 <= i <= Windows(|cps|)
      invariant points == SplineUpTo(cps, i)
    {
      var g := cps[i .. i + 4];
      var cx := MatVec(SplineBasis, Xs(g));
      var cy := MatVec(SplineBasis, Ys(g));
      var fx := MatVec(DeltaMatrix(Delta), cx);
      var fy := MatVec(DeltaMatrix(Delta), cy);
      var window := FwdDiff(Steps, fx.x, fx.y, fx.z, fx.w, fy.x, fy.y, fy.z, fy.w);
      FwdDiffWindow(g, window);
      points := points + window;
      i := i + 1;
    }
  }

  /** The B-spline cubic of control values v at t = 0 and t = 1. */
  lemma SplineEvalEnds(v: Vec4)
    ensures Eval(MatVec(SplineBasis, v), 0.0) == (v.x + 4.0 * v.y + v.z) / 6.0
    ensures Eval(MatVec(SplineBasis, v), 1.0) == (v.y + 4.0 * v.z + v.w) / 6.0
  {
  }

  /** A window starts at (g0 + 4 g1 + g2) / 6 and ends at (g1 + 4 g2 + g3) / 6. */
  lemma SplineWindowEnds(g: seq<Point2>)
    requires |g| == 4
    ensures |SplineWindow(g)| == 11
    ensures SplineWindow(g)[0] == Point2((g[0].x + 4.0 * g[1].x + g[2].x) / 6.0, (g[0].y + 4.0 * g[1].y + g[2].y) / 6.0)
    ensures SplineWindow(g)[10] == Point2((g[1].x + 4.0 * g[2].x + g[3].x) / 6.0, (g[1].y + 4.0 * g[2].y + g[3].y) / 6.0)
  {
    assert SplineWindow(g)[0] == Point2(Eval(SplineX(g), 0.0), Eval(SplineY(g), 0.0));
    assert SplineWindow(g)[10] == Point2(Eval(SplineX(g), 1.0), Eval(SplineY(g), 1.0));
    SplineEvalEnds(Xs(g));
    SplineEvalEnds(Ys(g));
  }

  /** Windows of 11 points, 11 (N - 3) in all (none for N < 4); point
      11 i + k is window i evaluated at t = k / 10. */
  lemma {:induction false} SplineUpToSamples(cps: seq<Point2>, i: nat)
    requires i == 0 || i + 3 <= |cps|
    ensures |SplineUpTo(cps, i)| == 11 * i
    ensures forall n :: 0 <= n < 11 * i ==>
      SplineUpTo(cps, i)[n] == SplineWindow(cps[n / 11 .. n / 11 + 4])[n % 11]
  {
    if i > 0 {
      SplineUpToSamples(cps, i - 1);
      var prev := SplineUpTo(cps, i - 1);
      assert SplineUpTo(cps, i) == prev + SplineWindow(cps[i - 1 .. i + 3]);
      forall n | 11 * (i - 1) <= n < 11 * i
        ensures SplineUpTo(cps, i)[n] == SplineWindow(cps[n / 11 .. n / 11 + 4])[n % 11]
      {
        assert n / 11 == i - 1 && n % 11 == n - |prev|;
      }
    }
  }

  lemma BSplineCurveSamples(cps: seq<Point2>)
    ensures |cps| < 4 ==> BSplineCurve(cps) == []
    ensures |cps| >= 4 ==> |BSplineCurve(cps)| == 11 * (|cps| - 3)
    ensures forall n :: 0 <= n < |BSplineCurve(cps)| ==>
      BSplineCurve(cps)[n] == Point2(Eval(SplineX(cps[n / 11 .. n / 11 + 4]), (n % 11) as real / 10.0),
                                     Eval(SplineY(cps[n / 11 .. n / 11 + 4]), (n % 11) as real / 10.0))
  {
    SplineUpToSamples(cps, Windows(|cps|));
  }

  /** Consecutive windows join: the last point of window w is the first
      point of window w + 1, so it appears twice in the output. */
  lemma BSplineWindowsJoin(cps: seq<Point2>, w: nat)
    requires w + 1 < Windows(|cps|)
    ensures |BSplineCurve(cps)| == 11 * Windows(|cps|)
    ensures BSplineCurve(cps)[11 * w + 10] == BSplineCurve(cps)[11 * (w + 1)]
  {
    SplineUpToSamples(cps, Windows(|cps|));
    var g0, g1 := cps[w .. w + 4], cps[w + 1 .. w + 5];
    assert (11 * w + 10) / 11 == w && (11 * w + 10) % 11 == 10;
    assert (11 * (w + 1)) / 11 == w + 1 && (11 * (w + 1)) % 11 == 0;
    SplineWindowEnds(g0);
    SplineWindowEnds(g1);
  }

  /** Four equal control points give a window of that one point. */
  lemma SplineWindowConstant(g: seq<Point2>)
    requires |g| == 4 && g[1] == g[0] && g[2] == g[0] && g[3] == g[0]
    ensures forall k :: 0 <= k < |SplineWindow(g)| ==> SplineWindow(g)[k] == g[0]
  {
    forall k | 0 <= k <= Steps
      ensures SplineWindow(g)[k] == g[0]
    {
      SplineConstant(g[0].x, k as real / 10.0);
      SplineConstant(g[0].y, k as real / 10.0);
    }
  }
}
