/** The cubic machinery shared by the curve and surface generators: the
    parameter vector [u^3, u^2, u, 1], the Bezier and B-spline basis
    matrices, the forward-difference matrix for a step d, and the
    forward-difference accumulator loop with its closed form. */
module Cubic {
  import opened LinAlg

  /** [u^3, u^2, u, 1] (the `T` vectors and `params`). */
  function Powers(u: real): Vec4 {
    Vec4(u * u * u, u * u, u, 1.0)
  }

  /** Entry k of `linspace(0, 1, m + 1)`: the k-th of m + 1 evenly spaced
      parameters from 0 to 1. */
  function Spaced(k: int, m: nat): real
    requires m > 0
  {
    k as real / m as real
  }

  lemma SpacedEnds(m: nat)
    requires m > 0
    ensures Spaced(0, m) == 0.0 && Spaced(m, m) == 1.0
  {
  }

  /** The value at u of the cubic whose coefficients, highest power first,
      are c. */
  function Eval(c: Vec4, u: real): real {
    Dot(Powers(u), c)
  }

  /** The Bezier basis matrix MB. */
  const BezierBasis: Mat4 :=
    Mat4(Vec4(-1.0, 3.0, -3.0, 1.0), Vec4(3.0, -6.0, 3.0, 0.0),
         Vec4(-3.0, 3.0, 0.0, 0.0), Vec4(1.0, 0.0, 0.0, 0.0))

  /** The uniform B-spline basis matrix MBS (the integer matrix over 6). */
  const SplineBasis: Mat4 :=
    Mat4(Vec4(-1.0 / 6.0, 3.0 / 6.0, -3.0 / 6.0, 1.0 / 6.0), Vec4(3.0 / 6.0, -6.0 / 6.0, 3.0 / 6.0, 0.0),
         Vec4(-3.0 / 6.0, 0.0, 3.0 / 6.0, 0.0), Vec4(1.0 / 6.0, 4.0 / 6.0, 1.0 / 6.0, 0.0))

  /** The forward-difference matrix E for step d: E . c is the start value
      and the first three differences of the cubic c sampled with step d. */
  function DeltaMatrix(d: real): Mat4 {
    Mat4(Vec4(0.0, 0.0, 0.0, 1.0), Vec4(d * d * d, d * d, d, 0.0),
         Vec4(6.0 * d * d * d, 2.0 * d * d, 0.0, 0.0), Vec4(6.0 * d * d * d, 0.0, 0.0, 0.0))
  }

  /** The binomial weights (C(k,0), C(k,1), C(k,2), C(k,3)). */
  function Binomials(k: real): Vec4 {
    Vec4(1.0, k, k * (k - 1.0) / 2.0, k * (k - 1.0) * (k - 2.0) / 6.0)
  }

  /** The value held after k rounds of `x += dx; dx += d2x; d2x += d3x`
      started from s = (x, dx, d2x, d3x): Newton's forward-difference sum
      x + k dx + C(k,2) d2x + C(k,3) d3x. */
  function Accumulated(s: Vec4, k: nat): real {
    Dot(Binomials(k as real), s)
  }

  /** The state (dx, d2x, d3x, 0) one difference order higher. */
  function Differences(s: Vec4): Vec4 {
    Vec4(s.y, s.z, s.w, 0.0)
  }

  /** Pascal's rule on the binomial weights. */
  lemma PascalWeights(k: real, a: real, b: real, c: real, d: real)
    ensures (a + k * b + k * (k - 1.0) / 2.0 * c + k * (k - 1.0) * (k - 2.0) / 6.0 * d)
          + (b + k * c + k * (k - 1.0) / 2.0 * d)
         == a + (k + 1.0) * b + (k + 1.0) * k / 2.0 * c + (k + 1.0) * k * (k - 1.0) / 6.0 * d
  {
  }

  /** One round of the accumulator: adding the next difference order to the
      value after k rounds gives the value after k + 1 rounds. */
  lemma AccumulateStep(s: Vec4, k: nat)
    ensures Accumulated(s, k) + Accumulated(Differences(s), k) == Accumulated(s, k + 1)
  {
    PascalWeights(k as real, s.x, s.y, s.z, s.w);
  }

  /** The coefficient identity behind forward differencing with step d. */
  lemma DeltaWeights(k: real, d: real, a: real, b: real, c: real, w: real)
    ensures w + k * (d * d * d * a + d * d * b + d * c)
          + k * (k - 1.0) / 2.0 * (6.0 * d * d * d * a + 2.0 * d * d * b)
          + k * (k - 1.0) * (k - 2.0) / 6.0 * (6.0 * d * d * d * a)
         == (k * d) * (k * d) * (k * d) * a + (k * d) * (k * d) * b + (k * d) * c + w
  {
  }

  /** Forward differencing is direct evaluation: started from E(d) . c, the
      accumulator holds after k rounds the value of the cubic c at k d. */
  lemma AccumulatedEvaluates(c: Vec4, d: real, k: nat)
    ensures Accumulated(MatVec(DeltaMatrix(d), c), k) == Eval(c, k as real * d)
  {
    DeltaWeights(k as real, d, c.x, c.y, c.z, c.w);
  }

  /** The forward-difference loop (`__fwd_diff`): n rounds of second- and
      third-order accumulation on x and on y, collecting the start point and
      the point after every round. */
  method FwdDiff(n: nat, x0: real, dx0: real, d2x0: real, d3x0: real,
                 y0: real, dy0: real, d2y0: real, d3y0: real)
    returns (points: seq<Point2>)
    ensures |points| == n + 1
    ensures forall k :: 0 <= k <= n ==>
      points[k] == Point2(Accumulated(Vec4(x0, dx0, d2x0, d3x0), k), Accumulated(Vec4(y0, dy0, d2y0, d3y0), k))
  {
    ghost var sx, sy := Vec4(x0, dx0, d2x0, d3x0), Vec4(y0, dy0, d2y0, d3y0);
    var x, dx, d2x := x0, dx0, d2x0;
    var y, dy, d2y := y0, dy0, d2y0;
    points := [Point2(x, y)];
    var i := 0;
    while i < n
      invariant 0 <= i <= n
      invariant |points| == i + 1
      invariant forall k :: 0 <= k <= i ==> points[k] == Point2(Accumulated(sx, k), Accumulated(sy, k))
      invariant x == Accumulated(sx, i) && dx == Accumulated(Differences(sx), i)
      invariant d2x == Accumulated(Differences(Differences(sx)), i)
      invariant y == Accumulated(sy, i) && dy == Accumulated(Differences(sy), i)
      invariant d2y == Accumulated(Differences(Differences(sy)), i)
    {
      AccumulateStep(sx, i);
      AccumulateStep(Differences(sx), i);
      AccumulateStep(Differences(Differences(sx)), i);
      AccumulateStep(sy, i);
      AccumulateStep(Differences(sy), i);
      AccumulateStep(Differences(Differences(sy)), i);
      x := x + dx;
      dx := dx + d2x;
      d2x := d2x + d3x0;

      y := y + dy;
      dy := dy + d2y;
      d2y := d2y + d3y0;
      points := points + [Point2(x, y)];
      i := i + 1;
    }
  }

  /** The ends of the Bezier basis: at u = 0 it selects the first control
      value, at u = 1 the last. */
  lemma BezierBasisStart()
    ensures VecMat(Powers(0.0), BezierBasis) == Vec4(1.0, 0.0, 0.0, 0.0)
  {
    PowersEnds();
    VecMatEnds(BezierBasis);
  }

  lemma BezierBasisEnd()
    ensures VecMat(Powers(1.0), BezierBasis) == Vec4(0.0, 0.0, 0.0, 1.0)
  {
    PowersEnds();
    VecMatEnds(BezierBasis);
  }

  /** The ends of the B-spline basis: at u = 0 the weights (1, 4, 1, 0) / 6,
      at u = 1 the weights (0, 1, 4, 1) / 6. */
  lemma SplineBasisEnds()
    ensures VecMat(Powers(0.0), SplineBasis) == Vec4(1.0 / 6.0, 4.0 / 6.0, 1.0 / 6.0, 0.0)
    ensures VecMat(Powers(1.0), SplineBasis) == Vec4(0.0, 1.0 / 6.0, 4.0 / 6.0, 1.0 / 6.0)
  {
    PowersEnds();
    VecMatEnds(SplineBasis);
  }

  lemma PowersEnds()
    ensures Powers(0.0) == Vec4(0.0, 0.0, 0.0, 1.0)
    ensures Powers(1.0) == Vec4(1.0, 1.0, 1.0, 1.0)
  {
  }

  /** (0, 0, 0, 1) picks the last row; (1, 1, 1, 1) sums the rows. */
  lemma VecMatEnds(m: Mat4)
    ensures VecMat(Vec4(0.0, 0.0, 0.0, 1.0), m) == m.r3
    ensures VecMat(Vec4(1.0, 1.0, 1.0, 1.0), m)
         == Vec4(m.r0.x + m.r1.x + m.r2.x + m.r3.x, m.r0.y + m.r1.y + m.r2.y + m.r3.y,
                 m.r0.z + m.r1.z + m.r2.z + m.r3.z, m.r0.w + m.r1.w + m.r2.w + m.r3.w)
  {
  }

  /** The B-spline weights sum to one at every u, so a constant control
      value gives a constant cubic. */
  lemma SplineConstant(p: real, u: real)
    ensures Eval(MatVec(SplineBasis, Vec4(p, p, p, p)), u) == p
  {
  }

  /** Forward differencing on the weight side: the binomial weights times
      E(d) are the powers of k d. */
  lemma BinomialsDelta(k: real, d: real)
    ensures VecMat(Binomials(k), DeltaMatrix(d)) == Powers(k * d)
  {
    var b, e := Binomials(k), DeltaMatrix(d);
    assert VecMat(b, e).x == b.y * (d * d * d) + b.z * (6.0 * d * d * d) + b.w * (6.0 * d * d * d);
    assert VecMat(b, e).y == b.y * (d * d) + b.z * (2.0 * d * d);
    assert VecMat(b, e).z == b.y * d;
    assert VecMat(b, e).w == 1.0;
    CubeWeights(k, d, b.z, b.w);
    SquareWeights(k, d, b.z);
  }

  lemma CubeWeights(k: real, d: real, c2: real, c3: real)
    requires c2 == k * (k - 1.0) / 2.0 && c3 == k * (k - 1.0) * (k - 2.0) / 6.0
    ensures k * (d * d * d) + c2 * (6.0 * d * d * d) + c3 * (6.0 * d * d * d) == (k * d) * (k * d) * (k * d)
  {
    assert c2 * 6.0 == 3.0 * k * (k - 1.0);
    assert c3 * 6.0 == k * (k - 1.0) * (k - 2.0);
    assert k + 3.0 * k * (k - 1.0) + k * (k - 1.0) * (k - 2.0) == k * k * k;
  }

  lemma SquareWeights(k: real, d: real, c2: real)
    requires c2 == k * (k - 1.0) / 2.0
    ensures k * (d * d) + c2 * (2.0 * d * d) == (k * d) * (k * d)
  {
    assert c2 * 2.0 == k * (k - 1.0);
  }

  /** A 4 x 4 patch of projected control points, split by coordinate:
      entry (r, q) of x and of y belongs to control point G[r][q]. */
  datatype Grid = Grid(x: Mat4, y: Mat4)

  function TransposeGrid(g: Grid): Grid {
    Grid(Transpose(g.x), Transpose(g.y))
  }

  /** The x values of the four points starting at index i. */
  function RowX(pts: seq<Point2>, i: nat): Vec4
    requires i + 4 <= |pts|
  {
    Vec4(pts[i].x, pts[i + 1].x, pts[i + 2].x, pts[i + 3].x)
  }

  function RowY(pts: seq<Point2>, i: nat): Vec4
    requires i + 4 <= |pts|
  {
    Vec4(pts[i].y, pts[i + 1].y, pts[i + 2].y, pts[i + 3].y)
  }

  /** The patch whose row r is the four points starting at start + r n. */
  function GridFrom(pts: seq<Point2>, start: nat, n: nat): Grid
    requires start + 3 * n + 4 <= |pts|
  {
    Grid(Mat4(RowX(pts, start), RowX(pts, start + n), RowX(pts, start + 2 * n), RowX(pts, start + 3 * n)),
         Mat4(RowY(pts, start), RowY(pts, start + n), RowY(pts, start + 2 * n), RowY(pts, start + 3 * n)))
  }

  /** Entry (r, q) of a matrix. */
  function At(m: Mat4, r: int, q: int): real
    requires 0 <= r < 4 && 0 <= q < 4
  {
    var row := if r == 0 then m.r0 else if r == 1 then m.r1 else if r == 2 then m.r2 else m.r3;
    if q == 0 then row.x else if q == 1 then row.y else if q == 2 then row.z else row.w
  }

  /** Entry (r, q) of GridFrom(pts, start, n) is point start + r n + q. */
  lemma GridFromAt(pts: seq<Point2>, start: nat, n: nat, r: nat, q: nat)
    requires start + 3 * n + 4 <= |pts| && r < 4 && q < 4
    ensures start + r * n + q < |pts|
    ensures At(GridFrom(pts, start, n).x, r, q) == pts[start + r * n + q].x
    ensures At(GridFrom(pts, start, n).y, r, q) == pts[start + r * n + q].y
  {
    assert r * n <= 3 * n by {
      if r == 0 { } else if r == 1 { } else if r == 2 { } else { }
    }
  }
}
