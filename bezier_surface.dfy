/** The bicubic Bezier surface generator: every block of 16 projected
    control points is a 4 x 4 patch G, drawn as 50 sub-curves of 50 points
    sampled from Q(s, t) = S . MB . G . MB^T . T, followed by 50 more from
    the transposed patch. */
module BezierSurfaces {
  import opened LinAlg
  import opened Cubic
  import opened Wrappers

  /** Samples per direction (`n_points`). */
  const PatchSamples: nat := 50

  const NotDivisible: string := "The number of control points must be divisible by 16."

  /** `Q(s, t, G)`: the row vector S . MB times the coordinate matrix, then
      times MB^T . T. */
  function BezierQ(g: Grid, s: real, t: real): Point2 {
    var smb := VecMat(Powers(s), BezierBasis);
    var mtt := MatVec(Transpose(BezierBasis), Powers(t));
    Point2(Dot(VecMat(smb, g.x), mtt), Dot(VecMat(smb, g.y), mtt))
  }

  /** `calculate_piece`: sub-curve m holds Q(s_m, t_k) for the 50 evenly
      spaced t_k, with s_m and t_k both k / 49. */
  function BezierPatch(g: Grid): seq<seq<Point2>> {
    seq(PatchSamples, m requires 0 <= m < PatchSamples =>
      seq(PatchSamples, k requires 0 <= k < PatchSamples => BezierQ(g, Spaced(m, 49), Spaced(k, 49))))
  }

  /** `generate_curve` of one patch: the patch, then its transpose. */
  function BezierPatchCurves(g: Grid): seq<seq<Point2>> {
    BezierPatch(g) + BezierPatch(TransposeGrid(g))
  }

  /** The patches of the first b blocks of 16 points, each laid out row by
      row: entry (r, q) is point 16 b + 4 r + q. */
  function BezierBlocks(pts: seq<Point2>, b: nat): seq<seq<Point2>>
    requires 16 * b <= |pts|
  {
    if b == 0 then [] else BezierBlocks(pts, b - 1) + BezierPatchCurves(GridFrom(pts, 16 * (b - 1), 4))
  }

  /** The surface drawn for a list of control points: an error when their
      number is not a multiple of 16. */
  function BezierSurface(pts: seq<Point2>): Result<seq<seq<Point2>>, string> {
    if |pts| % 16 != 0 then Err(NotDivisible) else Ok(BezierBlocks(pts, |pts| / 16))
  }

  /** `calculate_piece`, its two nested loops. */
  method CalculatePiece(g: Grid) returns (subCurves: seq<seq<Point2>>)
    ensures subCurves == BezierPatch(g)
  {
    subCurves := [];
    var m := 0;
    while m < PatchSamples
      invariant 0 <= m <= PatchSamples
      invariant subCurves == BezierPatch(g)[..m]
    {
      var s := Spaced(m, 49);
      var subCurve := [];
      var k := 0;
      while k < PatchSamples
        invariant 0 <= k <= PatchSamples
        invariant subCurve == BezierPatch(g)[m][..k]
      {
        subCurve := subCurve + [BezierQ(g, s, Spaced(k, 49))];
        k := k + 1;
      }
      assert subCurve == BezierPatch(g)[m];
      assert BezierPatch(g)[..m + 1] == BezierPatch(g)[..m] + [BezierPatch(g)[m]];
      subCurves := subCurves + [subCurve];
      m := m + 1;
    }
  }

  /** `generate_curve`: the 4-row grid gives one pass of its
      `range(0, N, 4)` loop, which draws the patch and its transpose. */
  method GenerateCurve(g: Grid) returns (curvePieces: seq<seq<Point2>>)
    ensures curvePieces == BezierPatchCurves(g)
  {
    var direct := CalculatePiece(g);
    var transposed := CalculatePiece(TransposeGrid(g));
    curvePieces := direct + transposed;
  }

  /** `generate_curves`. */
  method GenerateCurves(pts: seq<Point2>) returns (r: Result<seq<seq<Point2>>, string>)
    ensures r == BezierSurface(pts)
  {
    if |pts| % 16 != 0 {
      return Err(NotDivisible);
    }
    var curvesList := [];
    var i := 0;
    ghost var k := 0;
    while i < |pts|
      invariant i == 16 * k && i <= |pts|
      invariant curvesList == BezierBlocks(pts, k)
    {
      NextBlockFits(|pts|, k);
      var g := GridFrom(pts, i, 4);
      var pieces := GenerateCurve(g);
      curvesList := curvesList + pieces;
      i := i + 16;
      k := k + 1;
    }
    AllBlocks(|pts|, k);
    return Ok(curvesList);
  }

  /** Below a multiple of 16, a multiple of 16 leaves room for one more block. */
  lemma NextBlockFits(m: nat, k: nat)
    requires m % 16 == 0 && 16 * k < m
    ensures 16 * k + 16 <= m
  {
    var q := m / 16;
    assert m == 16 * q;
  }

  /** The loop ends after m / 16 blocks. */
  lemma AllBlocks(m: nat, k: nat)
    requires m == 16 * k
    ensures m % 16 == 0 && k == m / 16
  {
  }

  /** A block count that is not a multiple of 16 is refused; the empty list
      gives no curves. */
  lemma BezierSurfaceErrors(pts: seq<Point2>)
    ensures BezierSurface(pts).Err? <==> |pts| % 16 != 0
    ensures |pts| == 0 ==> BezierSurface(pts) == Ok([])
  {
  }

  /** Every block gives 100 sub-curves of 50 points: sub-curve 100 b + m is
      sub-curve m of block b's patch curves. */
  lemma {:induction false} BezierBlocksShape(pts: seq<Point2>, b: nat)
    requires 16 * b <= |pts|
    ensures |BezierBlocks(pts, b)| == 100 * b
    ensures forall n :: 0 <= n < 100 * b ==>
      16 * (n / 100) + 16 <= |pts| &&
      BezierBlocks(pts, b)[n] == BezierPatchCurves(GridFrom(pts, 16 * (n / 100), 4))[n % 100]
  {
    if b > 0 {
      BezierBlocksShape(pts, b - 1);
      var prev := BezierBlocks(pts, b - 1);
      assert BezierBlocks(pts, b) == prev + BezierPatchCurves(GridFrom(pts, 16 * (b - 1), 4));
      forall n | 100 * (b - 1) <= n < 100 * b
        ensures 16 * (n / 100) + 16 <= |pts|
        ensures BezierBlocks(pts, b)[n] == BezierPatchCurves(GridFrom(pts, 16 * (n / 100), 4))[n % 100]
      {
        assert n / 100 == b - 1 && n % 100 == n - |prev|;
      }
    }
  }

  /** The first 50 sub-curves of a block come from the patch, the other 50
      from its transpose; each has 50 points. */
  lemma BezierPatchCurvesShape(g: Grid)
    ensures |BezierPatchCurves(g)| == 100
    ensures forall m :: 0 <= m < 100 ==> |BezierPatchCurves(g)[m]| == 50
    ensures forall m, k :: 0 <= m < 50 && 0 <= k < 50 ==>
      BezierPatchCurves(g)[m][k] == BezierQ(g, Spaced(m, 49), Spaced(k, 49))
    ensures forall m, k :: 50 <= m < 100 && 0 <= k < 50 ==>
      BezierPatchCurves(g)[m][k] == BezierQ(TransposeGrid(g), Spaced(m - 50, 49), Spaced(k, 49))
  {
  }

  lemma DotFirst(b: Vec4, v: Vec4)
    requires b == Vec4(1.0, 0.0, 0.0, 0.0)
    ensures Dot(b, v) == v.x && Dot(v, b) == v.x
  {
  }

  lemma DotLast(b: Vec4, v: Vec4)
    requires b == Vec4(0.0, 0.0, 0.0, 1.0)
    ensures Dot(b, v) == v.w && Dot(v, b) == v.w
  {
  }

  lemma FirstRow(b: Vec4, m: Mat4)
    requires b == Vec4(1.0, 0.0, 0.0, 0.0)
    ensures VecMat(b, m) == m.r0
  {
  }

  lemma LastRow(b: Vec4, m: Mat4)
    requires b == Vec4(0.0, 0.0, 0.0, 1.0)
    ensures VecMat(b, m) == m.r3
  {
  }

  /** The weight vectors of Q at a parameter: S . MB on the left and
      MB^T . T on the right are the same vector. */
  lemma BezierWeights(u: real)
    ensures MatVec(Transpose(BezierBasis), Powers(u)) == VecMat(Powers(u), BezierBasis)
  {
    MatVecTranspose(BezierBasis, Powers(u));
  }

  /** The corners of a patch are its corner control points:
      Q(0, 0) = G[0][0], Q(0, 1) = G[0][3], Q(1, 0) = G[3][0], Q(1, 1) = G[3][3]. */
  lemma BezierCorner00(g: Grid, s: real, t: real)
    requires s == 0.0 && t == 0.0
    ensures BezierQ(g, s, t) == Point2(g.x.r0.x, g.y.r0.x)
  {
    BezierBasisStart();
    BezierWeights(0.0);
    var e := VecMat(Powers(0.0), BezierBasis);
    FirstRow(e, g.x); FirstRow(e, g.y);
    DotFirst(e, g.x.r0); DotFirst(e, g.y.r0);
  }

  lemma BezierCorner01(g: Grid, s: real, t: real)
    requires s == 0.0 && t == 1.0
    ensures BezierQ(g, s, t) == Point2(g.x.r0.w, g.y.r0.w)
  {
    BezierBasisStart();
    BezierBasisEnd();
    BezierWeights(1.0);
    var e0, e3 := VecMat(Powers(0.0), BezierBasis), VecMat(Powers(1.0), BezierBasis);
    FirstRow(e0, g.x); FirstRow(e0, g.y);
    DotLast(e3, g.x.r0); DotLast(e3, g.y.r0);
  }

  lemma BezierCorner10(g: Grid, s: real, t: real)
    requires s == 1.0 && t == 0.0
    ensures BezierQ(g, s, t) == Point2(g.x.r3.x, g.y.r3.x)
  {
    BezierBasisStart();
    BezierBasisEnd();
    BezierWeights(0.0);
    var e0, e3 := VecMat(Powers(0.0), BezierBasis), VecMat(Powers(1.0), BezierBasis);
    LastRow(e3, g.x); LastRow(e3, g.y);
    DotFirst(e0, g.x.r3); DotFirst(e0, g.y.r3);
  }

  lemma BezierCorner11(g: Grid, s: real, t: real)
    requires s == 1.0 && t == 1.0
    ensures BezierQ(g, s, t) == Point2(g.x.r3.w, g.y.r3.w)
  {
    BezierBasisEnd();
    BezierWeights(1.0);
    var e3 := VecMat(Powers(1.0), BezierBasis);
    LastRow(e3, g.x); LastRow(e3, g.y);
    DotLast(e3, g.x.r3); DotLast(e3, g.y.r3);
  }

  /** The corner sub-curve points of a patch: the first and last points of
      the first and last sub-curves. */
  lemma BezierPatchCorners(g: Grid)
    ensures |BezierPatch(g)| == 50 && |BezierPatch(g)[0]| == 50 && |BezierPatch(g)[49]| == 50
    ensures BezierPatch(g)[0][0] == Point2(g.x.r0.x, g.y.r0.x)
    ensures BezierPatch(g)[0][49] == Point2(g.x.r0.w, g.y.r0.w)
    ensures BezierPatch(g)[49][0] == Point2(g.x.r3.x, g.y.r3.x)
    ensures BezierPatch(g)[49][49] == Point2(g.x.r3.w, g.y.r3.w)
  {
    assert BezierPatch(g)[0][0] == BezierQ(g, Spaced(0, 49), Spaced(0, 49));
    assert BezierPatch(g)[0][49] == BezierQ(g, Spaced(0, 49), Spaced(49, 49));
    assert BezierPatch(g)[49][0] == BezierQ(g, Spaced(49, 49), Spaced(0, 49));
    assert BezierPatch(g)[49][49] == BezierQ(g, Spaced(49, 49), Spaced(49, 49));
    BezierCorner00(g, Spaced(0, 49), Spaced(0, 49));
    BezierCorner01(g, Spaced(0, 49), Spaced(49, 49));
    BezierCorner10(g, Spaced(49, 49), Spaced(0, 49));
    BezierCorner11(g, Spaced(49, 49), Spaced(49, 49));
  }

  /** Q of the transposed patch at (s, t) is Q of the patch at (t, s). */
  lemma BezierQTranspose(g: Grid, s: real, t: real)
    ensures BezierQ(TransposeGrid(g), s, t) == BezierQ(g, t, s)
  {
    BezierWeights(s);
    BezierWeights(t);
    var a, b := VecMat(Powers(s), BezierBasis), VecMat(Powers(t), BezierBasis);
    DotTranspose(a, g.x, b);
    DotTranspose(a, g.y, b);
  }

  /** So point k of transposed sub-curve m is point m of direct sub-curve k. */
  lemma BezierPatchTranspose(g: Grid, m: nat, k: nat)
    requires m < 50 && k < 50
    ensures |BezierPatch(g)| == 50 && |BezierPatch(TransposeGrid(g))| == 50
    ensures |BezierPatch(g)[k]| == 50 && |BezierPatch(TransposeGrid(g))[m]| == 50
    ensures BezierPatch(TransposeGrid(g))[m][k] == BezierPatch(g)[k][m]
  {
    BezierQTranspose(g, Spaced(m, 49), Spaced(k, 49));
  }
}
