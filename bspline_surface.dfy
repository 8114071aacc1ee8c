/** The bicubic B-spline surface generator: an n x n grid of projected
    control points (4 <= n <= 20) gives (n - 3)^2 overlapping 4 x 4 patches;
    each patch is drawn by forward differencing in both parametric
    directions, as 21 sub-curves of 21 points along one direction and 21
    more along the other. */
module BSplineSurfaces {
  import opened LinAlg
  import opened Cubic
  import opened Wrappers

  const SizeError: string := "The control points matrix must be between 4x4 and 20x20 in size"
  const SquareError: string := "The number of control points is not a perfect square"

  /** `NS = NT`: the sample count per direction; the step is 1 / (NS - 1). */
  const SweepSize: nat := 20
  const Step: real := 1.0 / (SweepSize - 1) as real

  // ---------------------------------------------------------------------
  // Grid validation and patch layout (`generate_curves`)
  // ---------------------------------------------------------------------

  function Square(n: nat): nat {
    n * n
  }

  /** `int(math.sqrt(NN))`: the integer square root. */
  function FloorSqrt(count: nat): (r: nat)
    ensures Square(r) <= count < Square(r + 1)
  {
    if count == 0 then 0
    else
      var r := FloorSqrt(count - 1);
      if Square(r + 1) <= count then r + 1 else r
  }

  /** The side of the control grid, or the error `generate_curves` raises:
      the size test comes before the perfect-square test. */
  function GridSide(count: nat): Result<nat, string> {
    var n := FloorSqrt(count);
    if n < 4 || n > 20 then Err(SizeError)
    else if Square(n) != count then Err(SquareError)
    else Ok(n)
  }

  lemma SquareMonotone(a: nat, b: nat)
    requires a < b
    ensures Square(a) < Square(b)
  {
    assert a * a <= a * b;
  }

  /** No square lies strictly between r^2 and (r + 1)^2. */
  lemma OnlyRoot(r: nat, n: nat, count: nat)
    requires Square(r) <= count < Square(r + 1) && Square(n) == count
    ensures n == r
  {
    if n < r {
      SquareMonotone(n, r);
    } else if n > r {
      SquareMonotone(r + 1, n + 1);
      if n > r + 1 {
        SquareMonotone(r + 1, n);
      }
    }
  }

  /** The root is below k exactly for the counts below k^2. */
  lemma RootBelow(count: nat, k: nat)
    ensures FloorSqrt(count) < k <==> count < Square(k)
  {
    var r := FloorSqrt(count);
    if r < k {
      if r + 1 < k { SquareMonotone(r + 1, k); }
    } else if r > k {
      SquareMonotone(k, r);
    }
  }

  /** A count is a square exactly when it is the square of its root. */
  lemma RootOfSquare(count: nat)
    ensures forall n :: Square(n) == count ==> n == FloorSqrt(count)
  {
    forall n | Square(n) == count
      ensures n == FloorSqrt(count)
    {
      OnlyRoot(FloorSqrt(count), n, count);
    }
  }

  /** The size error covers exactly the counts below 4^2 and from 21^2 on;
      the count is accepted exactly when it is the square of a side from 4
      to 20, and that side is returned; otherwise it is the square error. */
  lemma GridSideSpec(count: nat)
    ensures GridSide(count) == Err(SizeError) <==> count < 16 || count >= 441
    ensures GridSide(count).Ok? ==> 4 <= GridSide(count).value <= 20 && Square(GridSide(count).value) == count
    ensures GridSide(count).Ok? <==> exists n :: 4 <= n <= 20 && Square(n) == count
    ensures GridSide(count) == Err(SquareError) <==> 16 <= count < 441 && forall n :: Square(n) != count
  {
    RootBelow(count, 4);
    RootBelow(count, 21);
    assert Square(4) == 16 && Square(21) == 441;
    RootOfSquare(count);
    var r := FloorSqrt(count);
    if 4 <= r <= 20 && Square(r) == count {
      assert GridSide(count) == Ok(r);
    }
  }

  /** A grid of n x n control points, 4 <= n <= 20, is accepted with side n. */
  lemma GridSideOfSquare(n: nat)
    requires 4 <= n <= 20
    ensures GridSide(Square(n)) == Ok(n)
  {
    RootOfSquare(Square(n));
  }

  /** The index r n of the first control point of grid row r. */
  function RowStart(n: nat, r: nat): nat {
    if r == 0 then 0 else RowStart(n, r - 1) + n
  }

  lemma {:induction false} RowStartIsProduct(n: nat, r: nat)
    ensures RowStart(n, r) == r * n
  {
    if r > 0 {
      RowStartIsProduct(n, r - 1);
    }
  }

  lemma {:induction false} RowStartPlus(n: nat, r: nat, d: nat)
    ensures RowStart(n, r + d) == RowStart(n, r) + d * n
  {
    if d > 0 {
      RowStartPlus(n, r, d - 1);
    }
  }

  lemma RowStartMonotone(n: nat, r: nat, s: nat)
    requires r <= s
    ensures RowStart(n, r) <= RowStart(n, s)
  {
    RowStartPlus(n, r, s - r);
  }

  /** The four grid rows from row i fit in an n x n grid. */
  lemma RowFits(n: nat, i: nat)
    requires i + 4 <= n
    ensures RowStart(n, i) + 4 * n <= RowStart(n, n)
  {
    RowStartPlus(n, i, 4);
    RowStartMonotone(n, i + 4, n);
  }

  /** The patch at (i, j): its row r is the four points starting at
      (i + r) n + j. */
  function SplinePatchAt(pts: seq<Point2>, n: nat, i: nat, j: nat): Grid
    requires |pts| == RowStart(n, n) && i + 4 <= n && j + 4 <= n
  {
    RowFits(n, i);
    GridFrom(pts, RowStart(n, i) + j, n)
  }

  /** Entry (r, q) of patch (i, j) is control point (i + r) n + j + q. */
  lemma SplinePatchLayout(pts: seq<Point2>, n: nat, i: nat, j: nat, r: nat, q: nat)
    requires |pts| == n * n && i + 4 <= n && j + 4 <= n && r < 4 && q < 4
    ensures |pts| == RowStart(n, n)
    ensures var k := (i + r) * n + j + q;
            && k < |pts|
            && At(SplinePatchAt(pts, n, i, j).x, r, q) == pts[k].x
            && At(SplinePatchAt(pts, n, i, j).y, r, q) == pts[k].y
  {
    RowStartIsProduct(n, n);
    RowStartIsProduct(n, i);
    RowFits(n, i);
    GridFromAt(pts, RowStart(n, i) + j, n, r, q);
    assert i * n + j + r * n + q == (i + r) * n + j + q;
  }

  /** The sub-curves of the patch whose top-left control point is `start`
      in a grid of side n (none when the patch would run past the end). */
  function PatchCurvesFrom(pts: seq<Point2>, start: nat, n: nat): seq<seq<Point2>> {
    if start + 3 * n + 4 <= |pts| then SplinePatchCurves(GridFrom(pts, start, n)) else []
  }

  /** The curves of patches 0 .. j - 1 of the patch row whose first control
      point is `base`, for any per-patch curve generator `curve`. */
  function SplineRow(curve: (seq<Point2>, nat, nat) -> seq<seq<Point2>>, pts: seq<Point2>, n: nat, base: nat, j: nat): seq<seq<Point2>> {
    if j == 0 then [] else SplineRow(curve, pts, n, base, j - 1) + curve(pts, base + j - 1, n)
  }

  /** The curves of the patch rows 0 .. i - 1, row by row. */
  function SplineRows(curve: (seq<Point2>, nat, nat) -> seq<seq<Point2>>, pts: seq<Point2>, n: nat, i: nat): seq<seq<Point2>>
    requires 3 <= n
  {
    if i == 0 then []
    else SplineRows(curve, pts, n, i - 1) + SplineRow(curve, pts, n, RowStart(n, i - 1), n - 3)
  }

  /** The sub-curves of the patch inside the grid with top-left control
      point `start`. */
  lemma PatchCurvesInside(pts: seq<Point2>, start: nat, n: nat)
    requires start + 3 * n + 4 <= |pts|
    ensures PatchCurvesFrom(pts, start, n) == SplinePatchCurves(GridFrom(pts, start, n))
  {
  }

  lemma SplineRowStep(curve: (seq<Point2>, nat, nat) -> seq<seq<Point2>>, pts: seq<Point2>, n: nat, base: nat, j: nat)
    ensures SplineRow(curve, pts, n, base, j + 1) == SplineRow(curve, pts, n, base, j) + curve(pts, base + j, n)
  {
  }

  lemma SplineRowsStep(curve: (seq<Point2>, nat, nat) -> seq<seq<Point2>>, pts: seq<Point2>, n: nat, i: nat)
    requires 3 <= n
    ensures SplineRows(curve, pts, n, i + 1) == SplineRows(curve, pts, n, i) + SplineRow(curve, pts, n, RowStart(n, i), n - 3)
  {
  }

  /** The surface drawn for a list of control points. */
  function BSplineSurface(pts: seq<Point2>): Result<seq<seq<Point2>>, string> {
    match GridSide(|pts|)
    case Err(e) => Err(e)
    case Ok(n) =>
      assert 4 <= n;
      Ok(SplineRows(PatchCurvesFrom, pts, n, n - 3))
  }

  // ---------------------------------------------------------------------
  // One patch (`generate_curve`, `__create_subcurve`)
  // ---------------------------------------------------------------------

  /** `MBS . G . MBS^T`: the coefficient matrix of the bicubic. */
  function Coefficients(gm: Mat4): Mat4 {
    Product([SplineBasis, gm, Transpose(SplineBasis)])
  }

  /** `E_s . C . E_t` with E_t the transposed delta matrix for step dt. */
  function DifferenceTable(c: Mat4, ds: real, dt: real): Mat4 {
    Product([DeltaMatrix(ds), c, Transpose(DeltaMatrix(dt))])
  }

  /** The row shift (0, b0, b1, b2) of a weight vector. */
  function Shifted(b: Vec4): Vec4 {
    Vec4(0.0, b.x, b.y, b.z)
  }

  /** The difference table after m in-place row updates: row r holds the
      binomial combination, shifted r places, of the original rows. */
  function Swept(dd: Mat4, m: nat): Mat4 {
    var b := Binomials(m as real);
    Mat4(VecMat(b, dd), VecMat(Shifted(b), dd), VecMat(Shifted(Shifted(b)), dd),
         VecMat(Shifted(Shifted(Shifted(b))), dd))
  }

  /** One in-place update: every row but the last gets the one below it
      added, the row below still holding its old value. */
  function StepRows(a: Mat4): Mat4 {
    Mat4(Add(a.r0, a.r1), Add(a.r1, a.r2), Add(a.r2, a.r3), a.r3)
  }

  /** Point k of sub-curve m of a sweep: k forward-difference rounds on row
      0 of the table after m row updates. */
  function SweepPoint(ddx: Mat4, ddy: Mat4, m: nat, k: nat): Point2 {
    Point2(Accumulated(Swept(ddx, m).r0, k), Accumulated(Swept(ddy, m).r0, k))
  }

  /** The sub-curves `__create_subcurve` collects. */
  function Sweep(ddx: Mat4, ddy: Mat4, mainN: nat, minorN: nat): seq<seq<Point2>> {
    seq(mainN + 1, m requires 0 <= m <= mainN =>
      seq(minorN + 1, k requires 0 <= k <= minorN => SweepPoint(ddx, ddy, m, k)))
  }

  /** Sub-curve c of one patch: sub-curve c of the sweep of the difference
      tables, and after those sub-curve c - 21 of the sweep of their
      transposes. */
  function PatchCurve(g: Grid, c: nat): seq<Point2>
    requires c < 2 * (SweepSize + 1)
  {
    var ddx := DifferenceTable(Coefficients(g.x), Step, Step);
    var ddy := DifferenceTable(Coefficients(g.y), Step, Step);
    if c <= SweepSize then Sweep(ddx, ddy, SweepSize, SweepSize)[c]
    else Sweep(Transpose(ddx), Transpose(ddy), SweepSize, SweepSize)[c - SweepSize - 1]
  }

  /** The curves of one patch, sub-curve by sub-curve. */
  function SplinePatchCurves(g: Grid): seq<seq<Point2>> {
    seq(2 * (SweepSize + 1), c requires 0 <= c < 2 * (SweepSize + 1) => PatchCurve(g, c))
  }

  /** The curves of one patch are the sweep of the difference tables
      followed by the sweep of their transposes. */
  lemma SplinePatchSweeps(g: Grid)
    ensures SplinePatchCurves(g)
         == Sweep(DifferenceTable(Coefficients(g.x), Step, Step), DifferenceTable(Coefficients(g.y), Step, Step), SweepSize, SweepSize)
          + Sweep(Transpose(DifferenceTable(Coefficients(g.x), Step, Step)), Transpose(DifferenceTable(Coefficients(g.y), Step, Step)), SweepSize, SweepSize)
  {
  }

  lemma ShiftedWeights(k: real)
    ensures Add(Binomials(k), Shifted(Binomials(k))) == Binomials(k + 1.0)
  {
  }

  lemma SweptStart(dd: Mat4)
    ensures Swept(dd, 0) == dd
  {
  }

  /** A row update advances the table by one sub-curve. */
  lemma SweptStep(dd: Mat4, m: nat)
    ensures StepRows(Swept(dd, m)) == Swept(dd, m + 1)
  {
    var b := Binomials(m as real);
    ShiftedWeights(m as real);
    assert Binomials((m + 1) as real) == Add(b, Shifted(b));
    VecMatAdd(b, Shifted(b), dd);
    VecMatAdd(Shifted(b), Shifted(Shifted(b)), dd);
    VecMatAdd(Shifted(Shifted(b)), Shifted(Shifted(Shifted(b))), dd);
  }

  /** The surface point S(s) . MBS . G . MBS^T . T(t) of one coordinate,
      written as the blend of the control values with the B-spline weights
      S(s) . MBS on the left and T(t) . MBS on the right. */
  function Blend(gm: Mat4, s: real, t: real): real {
    Dot(VecMat(VecMat(Powers(s), SplineBasis), gm), VecMat(Powers(t), SplineBasis))
  }

  function SplineQ(g: Grid, s: real, t: real): Point2 {
    Point2(Blend(g.x, s, t), Blend(g.y, s, t))
  }

  /** Every patch inside the grid gives 42 sub-curves. */
  lemma PatchCurveCount(pts: seq<Point2>, n: nat)
    ensures forall start: nat :: start + 3 * n + 4 <= |pts| ==> |PatchCurvesFrom(pts, start, n)| == 42
  {
    forall start: nat | start + 3 * n + 4 <= |pts|
      ensures |PatchCurvesFrom(pts, start, n)| == 42
    {
      SplinePatchShape(GridFrom(pts, start, n));
    }
  }

  /** Each patch gives 42 sub-curves of 21 points. */
  lemma SplinePatchShape(g: Grid)
    ensures |SplinePatchCurves(g)| == 42
    ensures forall m :: 0 <= m < 42 ==> |SplinePatchCurves(g)[m]| == 21
  {
  }

  /** The coefficient matrix evaluated at (s, t) is the blend. */
  lemma CoefficientsBlend(gm: Mat4, s: real, t: real)
    ensures Dot(VecMat(Powers(s), Coefficients(gm)), Powers(t)) == Blend(gm, s, t)
  {
    ProductOfThree(SplineBasis, gm, Transpose(SplineBasis));
    VecMatMul(Powers(s), MatMul(SplineBasis, gm), Transpose(SplineBasis));
    VecMatMul(Powers(s), SplineBasis, gm);
    var u := VecMat(VecMat(Powers(s), SplineBasis), gm);
    DotTranspose(u, SplineBasis, Powers(t));
    DotSymmetric(VecMat(Powers(t), SplineBasis), u);
  }

  /** Row 0 of the difference table of c after m row updates: the row of
      the bicubic's coefficients at s = m d, times E(d)^T. */
  lemma SweptTableRow(c: Mat4, d: real, m: nat)
    ensures Swept(DifferenceTable(c, d, d), m).r0
         == VecMat(VecMat(Powers(m as real * d), c), Transpose(DeltaMatrix(d)))
  {
    ProductOfThree(DeltaMatrix(d), c, Transpose(DeltaMatrix(d)));
    assert DifferenceTable(c, d, d) == MatMul(MatMul(DeltaMatrix(d), c), Transpose(DeltaMatrix(d)));
    TableRowAt(c, d, m);
    assert Swept(DifferenceTable(c, d, d), m).r0 == VecMat(Binomials(m as real), DifferenceTable(c, d, d));
  }

  /** The binomial weights for m taken through E . C . E^T. */
  lemma TableRowAt(c: Mat4, d: real, m: nat)
    ensures VecMat(Binomials(m as real), MatMul(MatMul(DeltaMatrix(d), c), Transpose(DeltaMatrix(d))))
         == VecMat(VecMat(Powers(m as real * d), c), Transpose(DeltaMatrix(d)))
  {
    BinomialsDelta(m as real, d);
    RowThroughProduct(Binomials(m as real), DeltaMatrix(d), c, Powers(m as real * d));
  }

  /** A row vector b with b . E = p, taken through E . C . E^T, gives
      p . C . E^T. */
  lemma RowThroughProduct(b: Vec4, e: Mat4, c: Mat4, p: Vec4)
    requires VecMat(b, e) == p
    ensures VecMat(b, MatMul(MatMul(e, c), Transpose(e))) == VecMat(VecMat(p, c), Transpose(e))
  {
    VecMatMul(b, MatMul(e, c), Transpose(e));
    VecMatMul(b, e, c);
  }

  /** k accumulation rounds on w . E(d)^T evaluate w at t = k d. */
  lemma AccumulatedDelta(w: Vec4, d: real, k: nat)
    ensures Accumulated(VecMat(w, Transpose(DeltaMatrix(d))), k) == Dot(w, Powers(k as real * d))
  {
    var e := DeltaMatrix(d);
    var bk := Binomials(k as real);
    DotSymmetric(bk, VecMat(w, Transpose(e)));
    DotTranspose(w, e, bk);
    BinomialsDelta(k as real, d);
    assert VecMat(bk, e) == Powers(k as real * d);
    DotSymmetric(Powers(k as real * d), w);
  }

  /** After m row updates and k accumulation rounds the difference table of
      c holds the bicubic c at (m d, k d). */
  lemma SweepEvaluates(c: Mat4, d: real, m: nat, k: nat, s: real, t: real)
    requires s == m as real * d && t == k as real * d
    ensures Accumulated(Swept(DifferenceTable(c, d, d), m).r0, k) == Dot(VecMat(Powers(s), c), Powers(t))
  {
    SweptTableRow(c, d, m);
    AccumulatedDelta(VecMat(Powers(m as real * d), c), d, k);
  }

  lemma StepMultiple(m: nat)
    ensures m as real * Step == Spaced(m, 19)
  {
  }

  /** Point k of sub-curve m of the first sweep is the surface at
      (m / 19, k / 19), for m and k from 0 to 20: the samples run past the
      patch's parameter range [0, 1] up to 20 / 19. */
  lemma SplinePatchDirect(g: Grid, m: nat, k: nat)
    requires m <= 20 && k <= 20
    ensures |SplinePatchCurves(g)| == 42 && |SplinePatchCurves(g)[m]| == 21
    ensures SplinePatchCurves(g)[m][k] == SplineQ(g, Spaced(m, 19), Spaced(k, 19))
  {
    var ddx := DifferenceTable(Coefficients(g.x), Step, Step);
    var ddy := DifferenceTable(Coefficients(g.y), Step, Step);
    assert SplinePatchCurves(g)[m][k] == SweepPoint(ddx, ddy, m, k);
    StepMultiple(m);
    StepMultiple(k);
    SweepPointBlend(g, m, k, Spaced(m, 19), Spaced(k, 19));
  }

  lemma SweepPointBlend(g: Grid, m: nat, k: nat, s: real, t: real)
    requires s == m as real * Step && t == k as real * Step
    ensures SweepPoint(DifferenceTable(Coefficients(g.x), Step, Step), DifferenceTable(Coefficients(g.y), Step, Step), m, k)
         == SplineQ(g, s, t)
  {
    SweepEvaluates(Coefficients(g.x), Step, m, k, s, t);
    SweepEvaluates(Coefficients(g.y), Step, m, k, s, t);
    CoefficientsBlend(g.x, s, t);
    CoefficientsBlend(g.y, s, t);
  }

  /** Row 0 of the table after m updates, accumulated k rounds, is row 0 of
      the transposed table after k updates, accumulated m rounds. */
  lemma SweepTransposed(dd: Mat4, m: nat, k: nat)
    ensures Accumulated(Swept(Transpose(dd), m).r0, k) == Accumulated(Swept(dd, k).r0, m)
  {
    var bm, bk := Binomials(m as real), Binomials(k as real);
    DotTranspose(bm, dd, bk);
    DotSymmetric(bk, VecMat(bm, Transpose(dd)));
  }

  /** The second sweep is the first one transposed: its sub-curve m, point
      k is sub-curve k, point m of the first; the copy it works on is taken
      before the first sweep updates the tables. */
  lemma SplinePatchTransposed(g: Grid, m: nat, k: nat)
    requires m <= 20 && k <= 20
    ensures |SplinePatchCurves(g)| == 42 && |SplinePatchCurves(g)[21 + m]| == 21 && |SplinePatchCurves(g)[k]| == 21
    ensures SplinePatchCurves(g)[21 + m][k] == SplinePatchCurves(g)[k][m]
  {
    var ddx := DifferenceTable(Coefficients(g.x), Step, Step);
    var ddy := DifferenceTable(Coefficients(g.y), Step, Step);
    assert SplinePatchCurves(g)[21 + m][k] == SweepPoint(Transpose(ddx), Transpose(ddy), m, k);
    assert SplinePatchCurves(g)[k][m] == SweepPoint(ddx, ddy, k, m);
    SweepTransposed(ddx, m, k);
    SweepTransposed(ddy, m, k);
  }

  const SplineEndWeights: Vec4 := Vec4(1.0 / 6.0, 4.0 / 6.0, 1.0 / 6.0, 0.0)

  lemma BlendStart(gm: Mat4, s: real, t: real)
    requires s == 0.0 && t == 0.0
    ensures Blend(gm, s, t) == Dot(VecMat(SplineEndWeights, gm), SplineEndWeights)
  {
    SplineBasisEnds();
  }

  /** The first point of every patch is w . G . w^T for the weights
      w = (1, 4, 1, 0) / 6. */
  lemma SplinePatchStart(g: Grid)
    ensures |SplinePatchCurves(g)| == 42 && |SplinePatchCurves(g)[0]| == 21
    ensures SplinePatchCurves(g)[0][0]
         == Point2(Dot(VecMat(SplineEndWeights, g.x), SplineEndWeights), Dot(VecMat(SplineEndWeights, g.y), SplineEndWeights))
  {
    SplinePatchDirect(g, 0, 0);
    SpacedEnds(19);
    BlendStart(g.x, Spaced(0, 19), Spaced(0, 19));
    BlendStart(g.y, Spaced(0, 19), Spaced(0, 19));
  }

  function Constant(p: real): Mat4 {
    Mat4(Vec4(p, p, p, p), Vec4(p, p, p, p), Vec4(p, p, p, p), Vec4(p, p, p, p))
  }

  lemma SplineWeightsSum(u: real)
    ensures Dot(VecMat(Powers(u), SplineBasis), Vec4(1.0, 1.0, 1.0, 1.0)) == 1.0
  {
  }

  lemma ConstantWeighted(w: Vec4, p: real)
    requires w.x + w.y + w.z + w.w == 1.0
    ensures VecMat(w, Constant(p)) == Vec4(p, p, p, p)
    ensures Dot(Vec4(p, p, p, p), w) == p
  {
    assert w.x * p + w.y * p + w.z * p + w.w * p == (w.x + w.y + w.z + w.w) * p;
    assert p * w.x + p * w.y + p * w.z + p * w.w == (w.x + w.y + w.z + w.w) * p;
  }

  /** A patch whose control values are all p blends to p everywhere. */
  lemma BlendConstant(p: real, s: real, t: real)
    ensures Blend(Constant(p), s, t) == p
  {
    SplineWeightsSum(s);
    SplineWeightsSum(t);
    ConstantWeighted(VecMat(Powers(s), SplineBasis), p);
    ConstantWeighted(VecMat(Powers(t), SplineBasis), p);
  }

  /** If every control point of a patch is P, every point of both sweeps is P. */
  lemma SplinePatchConstant(g: Grid, p: Point2)
    requires g.x == Constant(p.x) && g.y == Constant(p.y)
    ensures |SplinePatchCurves(g)| == 42
    ensures forall m, k :: 0 <= m < 42 && 0 <= k < 21 ==> |SplinePatchCurves(g)[m]| == 21 && SplinePatchCurves(g)[m][k] == p
  {
    forall m, k | 0 <= m < 42 && 0 <= k < 21
      ensures |SplinePatchCurves(g)[m]| == 21 && SplinePatchCurves(g)[m][k] == p
    {
      if m < 21 {
        SplinePatchDirect(g, m, k);
        BlendConstant(p.x, Spaced(m, 19), Spaced(k, 19));
        BlendConstant(p.y, Spaced(m, 19), Spaced(k, 19));
      } else {
        SplinePatchTransposed(g, m - 21, k);
        SplinePatchDirect(g, k, m - 21);
        BlendConstant(p.x, Spaced(k, 19), Spaced(m - 21, 19));
        BlendConstant(p.y, Spaced(k, 19), Spaced(m - 21, 19));
      }
    }
  }

  /** A patch row of j patches holds 42 j sub-curves; sub-curve 42 jj + r
      is sub-curve r of patch jj. */
  lemma {:induction false} SplineRowAt(curve: (seq<Point2>, nat, nat) -> seq<seq<Point2>>, pts: seq<Point2>, n: nat, base: nat, j: nat, jj: nat, r: nat)
    requires j + 3 <= n && base + 4 * n <= |pts| && jj < j && r < 42
    requires forall start: nat :: start + 3 * n + 4 <= |pts| ==> |curve(pts, start, n)| == 42
    ensures |SplineRow(curve, pts, n, base, j)| == 42 * j
    ensures SplineRow(curve, pts, n, base, j)[42 * jj + r] == curve(pts, base + jj, n)[r]
  {
    assert |curve(pts, base + j - 1, n)| == 42;
    if jj < j - 1 {
      SplineRowAt(curve, pts, n, base, j - 1, jj, r);
    } else if j > 1 {
      SplineRowAt(curve, pts, n, base, j - 1, 0, 0);
    }
  }

  /** The patch rows 0 .. i - 1 hold i rows of 42 (n - 3) sub-curves. */
  lemma {:induction false} SplineRowsLength(curve: (seq<Point2>, nat, nat) -> seq<seq<Point2>>, pts: seq<Point2>, n: nat, i: nat)
    requires |pts| == RowStart(n, n) && i + 3 <= n
    requires forall start: nat :: start + 3 * n + 4 <= |pts| ==> |curve(pts, start, n)| == 42
    ensures |SplineRows(curve, pts, n, i)| == RowStart(42 * (n - 3), i)
  {
    if i > 0 {
      SplineRowsLength(curve, pts, n, i - 1);
      RowFits(n, i - 1);
      if n > 3 {
        SplineRowAt(curve, pts, n, RowStart(n, i - 1), n - 3, 0, 0);
      }
    }
  }

  /** Patch (ii, jj) of an n x n grid supplies the 42 sub-curves that start
      42 jj after the first sub-curve of patch row ii. */
  lemma {:induction false} SplineRowsAt(curve: (seq<Point2>, nat, nat) -> seq<seq<Point2>>, pts: seq<Point2>, n: nat, i: nat, ii: nat, jj: nat, r: nat)
    requires |pts| == RowStart(n, n) && i + 3 <= n && ii < i && jj + 4 <= n && r < 42
    requires forall start: nat :: start + 3 * n + 4 <= |pts| ==> |curve(pts, start, n)| == 42
    ensures |SplineRows(curve, pts, n, i)| == RowStart(42 * (n - 3), i)
    ensures RowStart(42 * (n - 3), ii) + 42 * jj + r < |SplineRows(curve, pts, n, i)|
    ensures RowStart(n, ii) + jj + 3 * n + 4 <= |pts|
    ensures SplineRows(curve, pts, n, i)[RowStart(42 * (n - 3), ii) + 42 * jj + r] == curve(pts, RowStart(n, ii) + jj, n)[r]
  {
    if ii < i - 1 {
      SplineRowsAt(curve, pts, n, i - 1, ii, jj, r);
      SplineRowsAtEarlier(curve, pts, n, i, ii, jj, r);
    } else {
      SplineRowsAtLast(curve, pts, n, i, ii, jj, r);
    }
  }

  /** The step for a patch in an earlier row: rows 0 .. i - 2 already hold it. */
  lemma SplineRowsAtEarlier(curve: (seq<Point2>, nat, nat) -> seq<seq<Point2>>, pts: seq<Point2>, n: nat, i: nat, ii: nat, jj: nat, r: nat)
    requires |pts| == RowStart(n, n) && i + 3 <= n && ii + 1 < i && jj + 4 <= n && r < 42
    requires forall start: nat :: start + 3 * n + 4 <= |pts| ==> |curve(pts, start, n)| == 42
    requires RowStart(42 * (n - 3), ii) + 42 * jj + r < |SplineRows(curve, pts, n, i - 1)|
    requires RowStart(n, ii) + jj + 3 * n + 4 <= |pts|
    requires SplineRows(curve, pts, n, i - 1)[RowStart(42 * (n - 3), ii) + 42 * jj + r] == curve(pts, RowStart(n, ii) + jj, n)[r]
    ensures |SplineRows(curve, pts, n, i)| == RowStart(42 * (n - 3), i)
    ensures RowStart(42 * (n - 3), ii) + 42 * jj + r < |SplineRows(curve, pts, n, i)|
    ensures SplineRows(curve, pts, n, i)[RowStart(42 * (n - 3), ii) + 42 * jj + r] == curve(pts, RowStart(n, ii) + jj, n)[r]
  {
    SplineRowsLength(curve, pts, n, i);
    var all, prev, row := SplineRows(curve, pts, n, i), SplineRows(curve, pts, n, i - 1), SplineRow(curve, pts, n, RowStart(n, i - 1), n - 3);
    assert all == prev + row;
    PickFromFront(all, prev, row, RowStart(42 * (n - 3), ii) + 42 * jj + r);
  }

  /** The step for a patch in the last row i - 1. */
  lemma SplineRowsAtLast(curve: (seq<Point2>, nat, nat) -> seq<seq<Point2>>, pts: seq<Point2>, n: nat, i: nat, ii: nat, jj: nat, r: nat)
    requires |pts| == RowStart(n, n) && i + 3 <= n && ii + 1 == i && jj + 4 <= n && r < 42
    requires forall start: nat :: start + 3 * n + 4 <= |pts| ==> |curve(pts, start, n)| == 42
    ensures |SplineRows(curve, pts, n, i)| == RowStart(42 * (n - 3), i)
    ensures RowStart(42 * (n - 3), ii) + 42 * jj + r < |SplineRows(curve, pts, n, i)|
    ensures RowStart(n, ii) + jj + 3 * n + 4 <= |pts|
    ensures SplineRows(curve, pts, n, i)[RowStart(42 * (n - 3), ii) + 42 * jj + r] == curve(pts, RowStart(n, ii) + jj, n)[r]
  {
    SplineRowsLength(curve, pts, n, i);
    SplineRowsLength(curve, pts, n, ii);
    SplineRowsIndexBounds(n, i, ii, jj, r);
    var all, prev, row := SplineRows(curve, pts, n, i), SplineRows(curve, pts, n, ii), SplineRow(curve, pts, n, RowStart(n, ii), n - 3);
    assert all == prev + row;
    RowFits(n, ii);
    SplineRowAt(curve, pts, n, RowStart(n, ii), n - 3, jj, r);
    PickFromBack(all, prev, row, RowStart(42 * (n - 3), ii) + 42 * jj + r, 42 * jj + r);
  }

  lemma PickFromFront<T>(all: seq<T>, front: seq<T>, back: seq<T>, k: nat)
    requires all == front + back && k < |front|
    ensures k < |all| && all[k] == front[k]
  {
  }

  lemma PickFromBack<T>(all: seq<T>, front: seq<T>, back: seq<T>, k: nat, j: nat)
    requires all == front + back && k == |front| + j && j < |back|
    ensures k < |all| && all[k] == back[j]
  {
  }

  /** Sub-curve r of patch (ii, jj) lies before patch row i, and the
      patch's control points lie in the grid. */
  lemma SplineRowsIndexBounds(n: nat, i: nat, ii: nat, jj: nat, r: nat)
    requires i + 3 <= n && ii < i && jj + 4 <= n && r < 42
    ensures RowStart(42 * (n - 3), ii) + 42 * jj + r < RowStart(42 * (n - 3), i)
    ensures RowStart(n, ii) + jj + 3 * n + 4 <= RowStart(n, n)
  {
    RowFits(n, ii);
    RowStartMonotone(42 * (n - 3), ii + 1, i);
  }

  /** An accepted n x n grid is drawn as its patch rows 0 .. n - 4. */
  lemma BSplineSurfaceRows(pts: seq<Point2>, n: nat)
    requires 4 <= n <= 20 && |pts| == n * n
    ensures |pts| == RowStart(n, n)
    ensures BSplineSurface(pts) == Ok(SplineRows(PatchCurvesFrom, pts, n, n - 3))
  {
    RowStartIsProduct(n, n);
    SquareSide(pts, n);
    SurfaceOfSide(pts, n);
  }

  lemma SquareSide(pts: seq<Point2>, n: nat)
    requires 4 <= n <= 20 && |pts| == n * n
    ensures GridSide(|pts|) == Ok(n)
  {
    assert |pts| == Square(n);
    GridSideOfSquare(n);
  }

  lemma SurfaceOfSide(pts: seq<Point2>, n: nat)
    requires GridSide(|pts|) == Ok(n)
    ensures 4 <= n
    ensures BSplineSurface(pts) == Ok(SplineRows(PatchCurvesFrom, pts, n, n - 3))
  {
  }

  /** The patch with top-left control point RowStart(n, i) + j is patch
      (i, j). */
  lemma PatchCurvesAt(pts: seq<Point2>, n: nat, i: nat, j: nat)
    requires |pts| == RowStart(n, n) && i + 4 <= n && j + 4 <= n
    ensures PatchCurvesFrom(pts, RowStart(n, i) + j, n) == SplinePatchCurves(SplinePatchAt(pts, n, i, j))
  {
    RowFits(n, i);
    PatchCurvesInside(pts, RowStart(n, i) + j, n);
  }

  /** The 42 sub-curves of patch (ii, jj), as one block of the rows. */
  lemma SplineRowsBlock(curve: (seq<Point2>, nat, nat) -> seq<seq<Point2>>, pts: seq<Point2>, n: nat, i: nat, ii: nat, jj: nat)
    requires |pts| == RowStart(n, n) && i + 3 <= n && ii < i && jj + 4 <= n
    requires forall start: nat :: start + 3 * n + 4 <= |pts| ==> |curve(pts, start, n)| == 42
    ensures RowStart(42 * (n - 3), ii) + 42 * jj + 42 <= |SplineRows(curve, pts, n, i)|
    ensures SplineRows(curve, pts, n, i)[RowStart(42 * (n - 3), ii) + 42 * jj .. RowStart(42 * (n - 3), ii) + 42 * jj + 42]
         == curve(pts, RowStart(n, ii) + jj, n)
  {
    var k := RowStart(42 * (n - 3), ii) + 42 * jj;
    SplineRowsAt(curve, pts, n, i, ii, jj, 41);
    var block, c := SplineRows(curve, pts, n, i)[k .. k + 42], curve(pts, RowStart(n, ii) + jj, n);
    forall r | 0 <= r < 42
      ensures block[r] == c[r]
    {
      SplineRowsAt(curve, pts, n, i, ii, jj, r);
    }
    assert block == c;
  }

  /** The surface has 42 (n - 3)^2 sub-curves, and the block of patch
      (i, j) starts at sub-curve 42 ((n - 3) i + j). */
  lemma BlockIndex(n: nat, i: nat, j: nat)
    requires 3 <= n
    ensures RowStart(42 * (n - 3), n - 3) == 42 * (n - 3) * (n - 3)
    ensures RowStart(42 * (n - 3), i) + 42 * j == 42 * ((n - 3) * i + j)
  {
    var l := 42 * (n - 3);
    RowStartIsProduct(l, n - 3);
    RowStartIsProduct(l, i);
    assert (n - 3) * l == 42 * (n - 3) * (n - 3);
    assert i * l == 42 * ((n - 3) * i);
  }

  // ---------------------------------------------------------------------
  // The imperative part, on 4 x 4 arrays
  // ---------------------------------------------------------------------

  predicate IsTable(a: array2<real>) {
    a.Length0 == 4 && a.Length1 == 4
  }

  function Contents(a: array2<real>): Mat4
    reads a
    requires IsTable(a)
  {
    Mat4(Vec4(a[0, 0], a[0, 1], a[0, 2], a[0, 3]), Vec4(a[1, 0], a[1, 1], a[1, 2], a[1, 3]),
         Vec4(a[2, 0], a[2, 1], a[2, 2], a[2, 3]), Vec4(a[3, 0], a[3, 1], a[3, 2], a[3, 3]))
  }

  /** A fresh 4 x 4 array holding m (`np.copy`). */
  method NewTable(m: Mat4) returns (a: array2<real>)
    ensures fresh(a) && IsTable(a) && Contents(a) == m
  {
    a := new real[4, 4]((r, q) requires 0 <= r < 4 && 0 <= q < 4 => At(m, r, q));
  }

  /** The nested update loop of `__create_subcurve`:
      `DD[i][j] += DD[i + 1][j]` for rows 0 to 2, on both tables. */
  method RowUpdate(ddx: array2<real>, ddy: array2<real>)
    requires IsTable(ddx) && IsTable(ddy) && ddx != ddy
    modifies ddx, ddy
    ensures Contents(ddx) == StepRows(old(Contents(ddx)))
    ensures Contents(ddy) == StepRows(old(Contents(ddy)))
  {
    for i := 0 to 3
      invariant forall r, q :: 0 <= r < 4 && 0 <= q < 4 ==>
        ddx[r, q] == if r < i then old(ddx[r, q]) + old(ddx[r + 1, q]) else old(ddx[r, q])
      invariant forall r, q :: 0 <= r < 4 && 0 <= q < 4 ==>
        ddy[r, q] == if r < i then old(ddy[r, q]) + old(ddy[r + 1, q]) else old(ddy[r, q])
    {
      for j := 0 to 4
        invariant forall r, q :: 0 <= r < 4 && 0 <= q < 4 ==>
          ddx[r, q] == if r < i || (r == i && q < j) then old(ddx[r, q]) + old(ddx[r + 1, q]) else old(ddx[r, q])
        invariant forall r, q :: 0 <= r < 4 && 0 <= q < 4 ==>
          ddy[r, q] == if r < i || (r == i && q < j) then old(ddy[r, q]) + old(ddy[r + 1, q]) else old(ddy[r, q])
      {
        ddx[i, j] := ddx[i, j] + ddx[i + 1, j];
        ddy[i, j] := ddy[i, j] + ddy[i + 1, j];
      }
    }
  }

  /** `__create_subcurve`: main_n + 1 sub-curves, each a forward-difference
      run of minor_n rounds on row 0, with a row update after each. */
  method CreateSubcurve(ddx: array2<real>, ddy: array2<real>, mainN: nat, minorN: nat)
    returns (coordinates: seq<seq<Point2>>)
    requires IsTable(ddx) && IsTable(ddy) && ddx != ddy
    modifies ddx, ddy
    ensures coordinates == Sweep(old(Contents(ddx)), old(Contents(ddy)), mainN, minorN)
    ensures Contents(ddx) == Swept(old(Contents(ddx)), mainN + 1)
    ensures Contents(ddy) == Swept(old(Contents(ddy)), mainN + 1)
  {
    ghost var mx, my := Contents(ddx), Contents(ddy);
    SweptStart(mx);
    SweptStart(my);
    coordinates := [];
    var m := 0;
    while m < mainN + 1
      invariant 0 <= m <= mainN + 1
      invariant Contents(ddx) == Swept(mx, m) && Contents(ddy) == Swept(my, m)
      invariant coordinates == Sweep(mx, my, mainN, minorN)[..m]
    {
      var points := FwdDiff(minorN, ddx[0, 0], ddx[0, 1], ddx[0, 2], ddx[0, 3],
                                    ddy[0, 0], ddy[0, 1], ddy[0, 2], ddy[0, 3]);
      assert Vec4(ddx[0, 0], ddx[0, 1], ddx[0, 2], ddx[0, 3]) == Swept(mx, m).r0;
      assert Vec4(ddy[0, 0], ddy[0, 1], ddy[0, 2], ddy[0, 3]) == Swept(my, m).r0;
      assert points == Sweep(mx, my, mainN, minorN)[m];
      assert Sweep(mx, my, mainN, minorN)[..m + 1] == Sweep(mx, my, mainN, minorN)[..m] + [points];
      coordinates := coordinates + [points];
      RowUpdate(ddx, ddy);
      SweptStep(mx, m);
      SweptStep(my, m);
      m := m + 1;
    }
  }

  /** `generate_curve`: the coefficient and difference tables of one patch
      and the two sweeps.  The transposed tables are built from the
      difference tables' values, so they hold the tables as they were
      before the first sweep updated them, as the copies in the source do. */
  method GenerateSplinePatch(g: Grid) returns (points: seq<seq<Point2>>)
    ensures points == SplinePatchCurves(g)
  {
    var ds := Step;
    var dt := Step;
    var cx := Coefficients(g.x);
    var cy := Coefficients(g.y);
    var ddx := DifferenceTable(cx, ds, dt);
    var ddy := DifferenceTable(cy, ds, dt);
    var ax := NewTable(ddx);
    var ay := NewTable(ddy);
    var first := CreateSubcurve(ax, ay, SweepSize, SweepSize);
    var ax2 := NewTable(Transpose(ddx));
    var ay2 := NewTable(Transpose(ddy));
    var second := CreateSubcurve(ax2, ay2, SweepSize, SweepSize);
    points := first + second;
    SplinePatchSweeps(g);
  }

  /** `generate_curves`: the grid validation, then the patch loops. */
  method GenerateCurves(pts: seq<Point2>) returns (r: Result<seq<seq<Point2>>, string>)
    ensures r == BSplineSurface(pts)
  {
    var nRoot := FloorSqrt(|pts|);
    if nRoot < 4 || nRoot > 20 {
      return Err(SizeError);
    }
    if Square(nRoot) != |pts| {
      return Err(SquareError);
    }
    RowStartIsProduct(nRoot, nRoot);
    var curves := GeneratePatches(pts, nRoot);
    return Ok(curves);
  }

  /** The outer `i` loop of `generate_curves` on a validated n x n grid:
      patch row i starts at control point i n. */
  method GeneratePatches(pts: seq<Point2>, n: nat) returns (curves: seq<seq<Point2>>)
    requires 4 <= n && |pts| == RowStart(n, n)
    ensures curves == SplineRows(PatchCurvesFrom, pts, n, n - 3)
  {
    curves := [];
    var i, base := 0, 0;
    while i < n - 3
      invariant 0 <= i <= n - 3 && base == RowStart(n, i)
      invariant curves == SplineRows(PatchCurvesFrom, pts, n, i)
    {
      SplineRowsStep(PatchCurvesFrom, pts, n, i);
      RowFits(n, i);
      var row := GeneratePatchRow(pts, n, base);
      curves := curves + row;
      i, base := i + 1, base + n;
    }
  }

  /** The inner `j` loop of `generate_curves`: the patches of the patch row
      whose first control point is `base`, left to right. */
  method GeneratePatchRow(pts: seq<Point2>, n: nat, base: nat) returns (curves: seq<seq<Point2>>)
    requires 3 <= n && base + 4 * n <= |pts|
    ensures curves == SplineRow(PatchCurvesFrom, pts, n, base, n - 3)
  {
    curves := [];
    var j := 0;
    while j < n - 3
      invariant 0 <= j <= n - 3
      invariant curves == SplineRow(PatchCurvesFrom, pts, n, base, j)
    {
      var g := GridFrom(pts, base + j, n);
      var pieces := GenerateSplinePatch(g);
      PatchCurvesInside(pts, base + j, n);
      SplineRowStep(PatchCurvesFrom, pts, n, base, j);
      assert pieces == PatchCurvesFrom(pts, base + j, n);
      curves := curves + pieces;
      j := j + 1;
    }
  }
}
