/** The editor's 3-D object: input normalisation, the affine transforms it
    applies to its own coordinates (4x4 row-vector matrices, the homogeneous
    coordinate dropped again without division), and the perspective divide
    followed by the normalisation matrix. */
module Objects {
  import opened LinAlg
  import opened Wrappers
  import opened Trig
  import opened Transformations

  /** The object kinds. */
  datatype ObjectType =
    | Object3D | Point | Line | Wireframe
    | BezierCurve | BSplineCurve | BezierSurface | BSplineSurface

  // ---------------------------------------------------------------------
  // Input normalisation (certify_format)
  // ---------------------------------------------------------------------

  /** The name an object keeps: a name that is not a string (None here)
      becomes "obj". */
  function CertifiedName(name: Option<string>): (r: string)
    ensures name.Some? ==> r == name.value
    ensures name.None? ==> r == "obj"
  {
    if name.Some? then name.value else "obj"
  }

  /** The type tag an object of n points ends up with: one point is always a
      Point, two points always a Line, and more points tagged Point or Line
      become a Wireframe; every other tag is kept. */
  function CertifiedType(n: nat, t: ObjectType): (r: ObjectType)
    requires n > 0
    ensures r == Point <==> n == 1
    ensures r == Line <==> n == 2
    ensures n > 2 && (t == Point || t == Line) ==> r == Wireframe
    ensures n > 2 && t != Point && t != Line ==> r == t
  {
    if n == 1 then Point
    else if n == 2 then Line
    else if t == Point || t == Line then Wireframe
    else t
  }

  /** The coordinate list after the empty-input rule: no coordinates at all
      become the single origin. */
  function NonEmptyInput(cs: seq<seq<real>>): (r: seq<seq<real>>)
    ensures |r| > 0
    ensures cs != [] ==> r == cs
  {
    if cs == [] then [[0.0, 0.0, 0.0]] else cs
  }

  function Zeros(k: nat): (r: seq<real>)
    ensures |r| == k && forall i :: 0 <= i < k ==> r[i] == 0.0
  {
    if k == 0 then [] else Zeros(k - 1) + [0.0]
  }

  /** A point as certify_format's own code leaves it when it is short: ONE
      0.0 is appended, whatever the number of missing values. */
  function PadOnce(p: seq<real>): seq<real> {
    if |p| < 3 then p + [0.0] else p
  }

  /** The coordinate rules of certify_format as written.  Short points get
      one 0.0.  If any point is then longer than 3, truncation builds one
      generator per point, and every generator reads the comprehension
      variable after the comprehension has finished, so each point becomes
      the first three values of the LAST point; when that last point has
      fewer than three values, the IndexError is caught and the points are
      replaced by (i, i, i).  Conversion to float changes nothing here. */
  function CertifiedCoordsAsWritten(cs: seq<seq<real>>): (r: seq<seq<real>>)
    requires |cs| > 0
    ensures |r| == |cs|
  {
    var padded := seq(|cs|, i requires 0 <= i < |cs| => PadOnce(cs[i]));
    var last := padded[|cs| - 1];
    if exists i :: 0 <= i < |cs| && |padded[i]| > 3 then
      if |last| >= 3 then seq(|cs|, i requires 0 <= i < |cs| => last[..3])
      else seq(|cs|, i requires 0 <= i < |cs| => [i as real, i as real, i as real])
    else padded
  }

  /** The evidently intended treatment of one point: its first three values,
      with 0.0 for each missing one. */
  function CertifiedPoint(p: seq<real>): (r: Vec3)
    ensures r.x == (if |p| > 0 then p[0] else 0.0)
    ensures r.y == (if |p| > 1 then p[1] else 0.0)
    ensures r.z == (if |p| > 2 then p[2] else 0.0)
  {
    var q := if |p| < 3 then p + Zeros(3 - |p|) else p;
    Vec3(q[0], q[1], q[2])
  }

  /** The coordinates an object is built with: one intended point per input
      point, the origin if there are none.  The curve padding with random
      points never applies (it compares a type's name, a string, with type
      members), so a curve keeps as many points as it was given. */
  function CertifiedCoords(cs: seq<seq<real>>): (r: seq<Vec3>)
    ensures |r| == |NonEmptyInput(cs)| && |r| > 0
    ensures cs == [] ==> r == [Vec3(0.0, 0.0, 0.0)]
    ensures forall i :: 0 <= i < |cs| ==> r[i] == CertifiedPoint(cs[i])
  {
    var ps := NonEmptyInput(cs);
    seq(|ps|, i requires 0 <= i < |ps| => CertifiedPoint(ps[i]))
  }

  function AsSeq(v: Vec3): seq<real> {
    [v.x, v.y, v.z]
  }

  /** A one-component point keeps only two components, and a point with four
      components makes every other point a copy of the last one. */
  lemma CertifyAsWrittenCounterexamples()
    ensures CertifiedCoordsAsWritten([[5.0]]) == [[5.0, 0.0]]
    ensures |CertifiedCoordsAsWritten([[5.0]])[0]| == 2
    ensures CertifiedCoordsAsWritten([[1.0, 2.0, 3.0, 4.0], [5.0, 6.0, 7.0]])
            == [[5.0, 6.0, 7.0], [5.0, 6.0, 7.0]]
    ensures CertifiedCoords([[5.0]]) == [Vec3(5.0, 0.0, 0.0)]
    ensures CertifiedCoords([[1.0, 2.0, 3.0, 4.0], [5.0, 6.0, 7.0]])
            == [Vec3(1.0, 2.0, 3.0), Vec3(5.0, 6.0, 7.0)]
  {
    var a: seq<seq<real>> := [[5.0]];
    var pa := seq(1, i requires 0 <= i < 1 => PadOnce(a[i]));
    assert [5.0] + [0.0] == [5.0, 0.0];
    assert pa[0] == [5.0, 0.0] && |pa| == 1;
    assert pa == [[5.0, 0.0]];
    assert !(exists i :: 0 <= i < 1 && |pa[i]| > 3);
    var b: seq<seq<real>> := [[1.0, 2.0, 3.0, 4.0], [5.0, 6.0, 7.0]];
    var pb := seq(2, i requires 0 <= i < 2 => PadOnce(b[i]));
    assert pb[0] == [1.0, 2.0, 3.0, 4.0] && pb[1] == [5.0, 6.0, 7.0];
    assert |pb[0]| > 3;
    assert pb[1][..3] == [5.0, 6.0, 7.0];
    var rb := CertifiedCoordsAsWritten(b);
    assert rb[0] == [5.0, 6.0, 7.0] && rb[1] == [5.0, 6.0, 7.0];
    var cb := CertifiedCoords(b);
    assert cb[0] == Vec3(1.0, 2.0, 3.0) && cb[1] == Vec3(5.0, 6.0, 7.0);
  }

  /** When every point has two or three values, the code as written and
      the intended rules agree. */
  lemma CertifyAgreesOnPlanarAndSpatial(cs: seq<seq<real>>)
    requires |cs| > 0
    requires forall i :: 0 <= i < |cs| ==> |cs[i]| == 2 || |cs[i]| == 3
    ensures CertifiedCoordsAsWritten(cs)
            == seq(|cs|, i requires 0 <= i < |cs| => AsSeq(CertifiedCoords(cs)[i]))
  {
    var padded := seq(|cs|, i requires 0 <= i < |cs| => PadOnce(cs[i]));
    forall i | 0 <= i < |cs|
      ensures |padded[i]| == 3 && padded[i] == AsSeq(CertifiedCoords(cs)[i])
    {
      var c := CertifiedPoint(cs[i]);
      assert padded[i][0] == c.x && padded[i][1] == c.y && padded[i][2] == c.z;
    }
    assert !(exists i :: 0 <= i < |cs| && |padded[i]| > 3);
  }

  /** The edges an object gets when none are given: edge i joins point i
      to point (i + 1) mod n. */
  function EdgeCycle(n: nat): (r: seq<(int, int)>)
    ensures |r| == n
  {
    seq(n, i requires 0 <= i < n => (i, (i + 1) % n))
  }

  lemma ModOfSuccessor(i: int, n: int)
    requires 0 <= i < n
    ensures (i + 1) % n == if i + 1 < n then i + 1 else 0
  {
    var q, r := (i + 1) / n, (i + 1) % n;
    assert i + 1 == n * q + r && 0 <= r < n;
    if i + 1 < n {
      assert q == 0;
    } else {
      assert q == 1;
    }
  }

  /** The default edges form the closed cycle 0 -> 1 -> ... -> n-1 -> 0:
      edge i leaves point i, each edge ends where the next begins, and the
      last edge returns to point 0. */
  lemma EdgeCycleIsClosed(n: nat)
    ensures forall i :: 0 <= i < n ==> EdgeCycle(n)[i].0 == i && 0 <= EdgeCycle(n)[i].1 < n
    ensures forall i :: 0 <= i < n - 1 ==> EdgeCycle(n)[i].1 == EdgeCycle(n)[i + 1].0
    ensures n > 0 ==> EdgeCycle(n)[n - 1].1 == 0
  {
    forall i | 0 <= i < n
      ensures EdgeCycle(n)[i].1 == if i + 1 < n then i + 1 else 0
    {
      ModOfSuccessor(i, n);
    }
  }

  // ---------------------------------------------------------------------
  // Matrices and calculate_coords
  // ---------------------------------------------------------------------

  function TranslationMatrix(dx: real, dy: real, dz: real): Mat4 {
    Mat4(Vec4(1.0, 0.0, 0.0, 0.0), Vec4(0.0, 1.0, 0.0, 0.0),
         Vec4(0.0, 0.0, 1.0, 0.0), Vec4(dx, dy, dz, 1.0))
  }

  function ScalingMatrix(sx: real, sy: real, sz: real): Mat4 {
    Mat4(Vec4(sx, 0.0, 0.0, 0.0), Vec4(0.0, sy, 0.0, 0.0),
         Vec4(0.0, 0.0, sz, 0.0), Vec4(0.0, 0.0, 0.0, 1.0))
  }

  /** Rotation about the x axis by an angle in degrees. */
  function XRotationMatrix(t: Trig, angle: real): Mat4 {
    var c := t.cosd(angle);
    var s := t.sind(angle);
    Mat4(Vec4(1.0, 0.0, 0.0, 0.0), Vec4(0.0, c, s, 0.0),
         Vec4(0.0, -s, c, 0.0), Vec4(0.0, 0.0, 0.0, 1.0))
  }

  /** Rotation about the y axis by an angle in degrees. */
  function YRotationMatrix(t: Trig, angle: real): Mat4 {
    var c := t.cosd(angle);
    var s := t.sind(angle);
    Mat4(Vec4(c, 0.0, -s, 0.0), Vec4(0.0, 1.0, 0.0, 0.0),
         Vec4(s, 0.0, c, 0.0), Vec4(0.0, 0.0, 0.0, 1.0))
  }

  /** Rotation about the z axis by an angle in degrees. */
  function ZRotationMatrix(t: Trig, angle: real): Mat4 {
    var c := t.cosd(angle);
    var s := t.sind(angle);
    Mat4(Vec4(c, s, 0.0, 0.0), Vec4(-s, c, 0.0, 0.0),
         Vec4(0.0, 0.0, 1.0, 0.0), Vec4(0.0, 0.0, 0.0, 1.0))
  }

  function Homog(p: Vec3): Vec4 {
    Vec4(p.x, p.y, p.z, 1.0)
  }

  /** One point of calculate_coords: [x, y, z, 1] . m with the last entry
      dropped (no division by it). */
  function Apply(m: Mat4, p: Vec3): Vec3 {
    var v := VecMat(Homog(p), m);
    Vec3(v.x, v.y, v.z)
  }

  /** calculate_coords: every point mapped through m, in order. */
  function CalculateCoords(cs: seq<Vec3>, m: Mat4): (r: seq<Vec3>)
    ensures |r| == |cs|
    ensures forall i :: 0 <= i < |cs| ==> r[i] == Apply(m, cs[i])
  {
    seq(|cs|, i requires 0 <= i < |cs| => Apply(m, cs[i]))
  }

  /** One coordinate of an affine image: (x, y, z, k) dotted with the
      column (a, b, c, d). */
  function Lin1(x: real, y: real, z: real, k: real, a: real, b: real, c: real, d: real): real {
    x * a + y * b + z * c + k * d
  }

  /** The affine map m restricted to x, y, z, applied to a point s whose
      homogeneous coordinate is k. */
  function Lin(m: Mat4, s: Vec3, k: real): Vec3 {
    Vec3(Lin1(s.x, s.y, s.z, k, m.r0.x, m.r1.x, m.r2.x, m.r3.x),
         Lin1(s.x, s.y, s.z, k, m.r0.y, m.r1.y, m.r2.y, m.r3.y),
         Lin1(s.x, s.y, s.z, k, m.r0.z, m.r1.z, m.r2.z, m.r3.z))
  }

  lemma ApplyIsLin(m: Mat4, p: Vec3)
    ensures Apply(m, p) == Lin(m, p, 1.0)
  {
  }

  // ---------------------------------------------------------------------
  // Geometric center
  // ---------------------------------------------------------------------

  function Sum(cs: seq<Vec3>): Vec3 {
    if cs == [] then Vec3(0.0, 0.0, 0.0)
    else
      var s := Sum(cs[..|cs| - 1]);
      var p := cs[|cs| - 1];
      Vec3(s.x + p.x, s.y + p.y, s.z + p.z)
  }

  /** geometric_center: the mean of the points, axis by axis. */
  function Mean(cs: seq<Vec3>): Vec3
    requires |cs| > 0
  {
    var s := Sum(cs);
    var n := |cs| as real;
    Vec3(s.x / n, s.y / n, s.z / n)
  }

  lemma Lin1Add(x: real, y: real, z: real, k: real, u: real, v: real, w: real,
                a: real, b: real, c: real, d: real)
    ensures Lin1(x, y, z, k, a, b, c, d) + Lin1(u, v, w, 1.0, a, b, c, d)
            == Lin1(x + u, y + v, z + w, k + 1.0, a, b, c, d)
  {
  }

  lemma LinStep(m: Mat4, s: Vec3, k: real, p: Vec3)
    ensures var l := Lin(m, s, k); var a := Apply(m, p);
            Vec3(l.x + a.x, l.y + a.y, l.z + a.z)
            == Lin(m, Vec3(s.x + p.x, s.y + p.y, s.z + p.z), k + 1.0)
  {
    ApplyIsLin(m, p);
    Lin1Add(s.x, s.y, s.z, k, p.x, p.y, p.z, m.r0.x, m.r1.x, m.r2.x, m.r3.x);
    Lin1Add(s.x, s.y, s.z, k, p.x, p.y, p.z, m.r0.y, m.r1.y, m.r2.y, m.r3.y);
    Lin1Add(s.x, s.y, s.z, k, p.x, p.y, p.z, m.r0.z, m.r1.z, m.r2.z, m.r3.z);
  }

  /** Summing the mapped points is mapping the sum, with homogeneous
      coordinate the number of points. */
  lemma {:induction false} SumApply(cs: seq<Vec3>, m: Mat4)
    ensures Sum(CalculateCoords(cs, m)) == Lin(m, Sum(cs), |cs| as real)
  {
    if cs != [] {
      var k := |cs| - 1;
      assert CalculateCoords(cs, m)[..k] == CalculateCoords(cs[..k], m);
      SumApply(cs[..k], m);
      LinStep(m, Sum(cs[..k]), k as real, cs[k]);
    }
  }

  lemma DivLin(x: real, y: real, z: real, n: real, a: real, b: real, c: real, d: real)
    requires n > 0.0
    ensures Lin1(x, y, z, n, a, b, c, d) / n == Lin1(x / n, y / n, z / n, 1.0, a, b, c, d)
  {
    var rhs := (x / n) * a + (y / n) * b + (z / n) * c + d;
    assert rhs * n == (x / n * n) * a + (y / n * n) * b + (z / n * n) * c + n * d;
    assert x / n * n == x && y / n * n == y && z / n * n == z;
  }

  /** The geometric center moves with the points: the center of the mapped
      points is the mapped center, for any matrix. */
  lemma MeanLin(s: Vec3, n: real, m: Mat4)
    requires n > 0.0
    ensures var l := Lin(m, s, n);
            Vec3(l.x / n, l.y / n, l.z / n) == Lin(m, Vec3(s.x / n, s.y / n, s.z / n), 1.0)
  {
    DivLin(s.x, s.y, s.z, n, m.r0.x, m.r1.x, m.r2.x, m.r3.x);
    DivLin(s.x, s.y, s.z, n, m.r0.y, m.r1.y, m.r2.y, m.r3.y);
    DivLin(s.x, s.y, s.z, n, m.r0.z, m.r1.z, m.r2.z, m.r3.z);
  }

  lemma MeanApply(cs: seq<Vec3>, m: Mat4)
    requires |cs| > 0
    ensures Mean(CalculateCoords(cs, m)) == Apply(m, Mean(cs))
  {
    SumApply(cs, m);
    var s := Sum(cs);
    var n := |cs| as real;
    var l := Lin(m, s, n);
    assert Mean(CalculateCoords(cs, m)) == Vec3(l.x / n, l.y / n, l.z / n);
    MeanLin(s, n, m);
    ApplyIsLin(m, Mean(cs));
  }

  // ---------------------------------------------------------------------
  // The transforms, as functions of the coordinate list
  // ---------------------------------------------------------------------

  /** translation: every point moves by (dx, dy, dz); count and order are
      kept. */
  function Translated(cs: seq<Vec3>, dx: real, dy: real, dz: real): (r: seq<Vec3>)
    ensures |r| == |cs|
    ensures forall i :: 0 <= i < |cs| ==> r[i] == Vec3(cs[i].x + dx, cs[i].y + dy, cs[i].z + dz)
  {
    CalculateCoords(cs, TranslationMatrix(dx, dy, dz))
  }

  /** The scaling matrix about c, in closed form: scale by (sx, sy, sz)
      and move the origin so that c stays put. */
  function ScalingAbout(c: Vec3, sx: real, sy: real, sz: real): Mat4 {
    Mat4(Vec4(sx, 0.0, 0.0, 0.0), Vec4(0.0, sy, 0.0, 0.0), Vec4(0.0, 0.0, sz, 0.0),
         Vec4(c.x - sx * c.x, c.y - sy * c.y, c.z - sz * c.z, 1.0))
  }

  /** scaling's own product (translate c to the origin, scale, translate
      back, multiplied in that order) is the closed form. */
  lemma ScalingAboutIsProduct(c: Vec3, sx: real, sy: real, sz: real)
    ensures Product([TranslationMatrix(-c.x, -c.y, -c.z), ScalingMatrix(sx, sy, sz),
                     TranslationMatrix(c.x, c.y, c.z)])
            == ScalingAbout(c, sx, sy, sz)
  {
    var a, b, d := TranslationMatrix(-c.x, -c.y, -c.z), ScalingMatrix(sx, sy, sz), TranslationMatrix(c.x, c.y, c.z);
    var ms := [a, b, d];
    assert ms[..2] == [a, b] && [a, b][..1] == [a];
    var m1 := MatMul(a, b);
    assert Product([a, b]) == m1;
    assert m1 == Mat4(Vec4(sx, 0.0, 0.0, 0.0), Vec4(0.0, sy, 0.0, 0.0), Vec4(0.0, 0.0, sz, 0.0),
                      Vec4(-c.x * sx, -c.y * sy, -c.z * sz, 1.0));
    assert Product(ms) == MatMul(m1, d);
  }

  /** Scaling p by (sx, sy, sz) about c: c + s*(p - c), componentwise. */
  function ScalePoint(c: Vec3, sx: real, sy: real, sz: real, p: Vec3): Vec3 {
    Vec3(c.x + sx * (p.x - c.x), c.y + sy * (p.y - c.y), c.z + sz * (p.z - c.z))
  }

  lemma ScaleEntry(u: real, s: real, c: real, q: real)
    requires q == u * s + (c - s * c)
    ensures q == c + s * (u - c)
  {
    assert s * (u - c) == s * u - s * c;
  }

  lemma ApplyScalingAbout(c: Vec3, sx: real, sy: real, sz: real, p: Vec3)
    ensures Apply(ScalingAbout(c, sx, sy, sz), p) == ScalePoint(c, sx, sy, sz, p)
  {
    var q := Apply(ScalingAbout(c, sx, sy, sz), p);
    ScaleEntry(p.x, sx, c.x, q.x);
    ScaleEntry(p.y, sy, c.y, q.y);
    ScaleEntry(p.z, sz, c.z, q.z);
  }

  /** scaling: the points under the scaling matrix about the geometric
      center at the time of the call. */
  function Scaled(cs: seq<Vec3>, sx: real, sy: real, sz: real): (r: seq<Vec3>)
    requires |cs| > 0
    ensures |r| == |cs|
  {
    CalculateCoords(cs, ScalingAbout(Mean(cs), sx, sy, sz))
  }

  /** Scaling maps every point p to c + s*(p - c), componentwise, where c is
      the geometric center. */
  lemma ScaledPoints(cs: seq<Vec3>, sx: real, sy: real, sz: real)
    requires |cs| > 0
    ensures forall i :: 0 <= i < |cs| ==> Scaled(cs, sx, sy, sz)[i] == ScalePoint(Mean(cs), sx, sy, sz, cs[i])
  {
    var c := Mean(cs);
    forall i | 0 <= i < |cs|
      ensures Scaled(cs, sx, sy, sz)[i] == ScalePoint(c, sx, sy, sz, cs[i])
    {
      ApplyScalingAbout(c, sx, sy, sz, cs[i]);
    }
  }

  /** Scaling leaves the geometric center where it was. */
  lemma ScaledKeepsCenter(cs: seq<Vec3>, sx: real, sy: real, sz: real)
    requires |cs| > 0
    ensures Mean(Scaled(cs, sx, sy, sz)) == Mean(cs)
  {
    var c := Mean(cs);
    MeanApply(cs, ScalingAbout(c, sx, sy, sz));
    ApplyScalingAbout(c, sx, sy, sz, c);
  }

  /** Scaling by (1, 1, 1) changes nothing. */
  lemma ScaledByOne(cs: seq<Vec3>)
    requires |cs| > 0
    ensures Scaled(cs, 1.0, 1.0, 1.0) == cs
  {
    ScaledPoints(cs, 1.0, 1.0, 1.0);
  }

  /** With scaling's default sz = 0 every point lands in the plane z = cz. */
  lemma ScaledFlattens(cs: seq<Vec3>, sx: real, sy: real)
    requires |cs| > 0
    ensures forall i :: 0 <= i < |cs| ==> Scaled(cs, sx, sy, 0.0)[i].z == Mean(cs).z
  {
    ScaledPoints(cs, sx, sy, 0.0);
  }

  /** The seven factors of __aux_rotation, for given turn angles. */
  function AuxFactors(t: Trig, p: Vec3, qx: real, qz: real, angle: real): (r: seq<Mat4>)
    ensures |r| == 7
  {
    [TranslationMatrix(-p.x, -p.y, -p.z), XRotationMatrix(t, qx), ZRotationMatrix(t, qz),
     YRotationMatrix(t, angle), ZRotationMatrix(t, -qz), XRotationMatrix(t, -qx),
     TranslationMatrix(p.x, p.y, p.z)]
  }

  /** __aux_rotation: translate P to the origin, turn about x by the angle of
      A's (z, x) components and about z by the angle of its (x, y)
      components, rotate about y by the requested angle, then undo the two
      turns and the translation. */
  function AuxRotation(t: Trig, p: Vec3, a: Vec3, angle: real): Mat4 {
    var a1 := VecMat(Homog(a), TranslationMatrix(-p.x, -p.y, -p.z));
    var qx := t.atan2d(a1.z, a1.x);
    var a2 := VecMat(a1, XRotationMatrix(t, qx));
    var qz := t.atan2d(a2.x, a2.y);
    Product(AuxFactors(t, p, qx, qz, angle))
  }

  /** get_vector_angle: the angles, in degrees, of the direction from p1 to
      p2, each measured by arctangent against the length of the other two
      components (Qz with its arguments the other way round). */
  function VectorAngle(t: Trig, p1: Vec3, p2: Vec3): Vec3 {
    var dx, dy, dz := p2.x - p1.x, p2.y - p1.y, p2.z - p1.z;
    Vec3(t.atan2d(dx, t.sqrt(dy * dy + dz * dz)),
         t.atan2d(dy, t.sqrt(dx * dx + dz * dz)),
         t.atan2d(t.sqrt(dy * dy + dx * dx), dz))
  }

  /** A direction along the z axis has no x or y angle. */
  lemma VectorAngleAlongZ(t: Trig, p1: Vec3, p2: Vec3)
    requires Arctangent(t) && Root(t)
    requires p2.x == p1.x && p2.y == p1.y
    ensures VectorAngle(t, p1, p2).x == 0.0 && VectorAngle(t, p1, p2).y == 0.0
  {
    var dz := p2.z - p1.z;
    assert 0.0 * 0.0 + dz * dz >= 0.0;
    assert t.sqrt(0.0 * 0.0 + dz * dz) >= 0.0;
  }

  /** A matrix whose last row is (0, 0, 0, 1). */
  predicate FixesOrigin(m: Mat4) {
    m.r3 == Vec4(0.0, 0.0, 0.0, 1.0)
  }

  /** A vector that the first factor sends to the origin stays there when
      every later factor fixes the origin. */
  lemma {:induction false} OriginStays(v: Vec4, ms: seq<Mat4>, k: nat)
    requires 1 <= k <= |ms|
    requires VecMat(v, ms[0]) == Vec4(0.0, 0.0, 0.0, 1.0)
    requires forall i :: 1 <= i < k ==> FixesOrigin(ms[i])
    ensures VecMat(v, Product(ms[..k])) == Vec4(0.0, 0.0, 0.0, 1.0)
  {
    if k == 1 {
      assert Product(ms[..1]) == ms[0];
    } else {
      OriginStays(v, ms, k - 1);
      assert ms[..k][..k - 1] == ms[..k - 1];
      VecMatProduct(v, ms[..k]);
    }
  }

  lemma RotationsFixOrigin(t: Trig, a: real)
    ensures FixesOrigin(XRotationMatrix(t, a))
    ensures FixesOrigin(YRotationMatrix(t, a))
    ensures FixesOrigin(ZRotationMatrix(t, a))
  {
  }

  lemma AuxProductFixesPivot(t: Trig, p: Vec3, qx: real, qz: real, angle: real)
    ensures Apply(Product(AuxFactors(t, p, qx, qz, angle)), p) == p
  {
    var ms := AuxFactors(t, p, qx, qz, angle);
    var v := Homog(p);
    RotationsFixOrigin(t, qx);
    RotationsFixOrigin(t, qz);
    RotationsFixOrigin(t, angle);
    RotationsFixOrigin(t, -qz);
    RotationsFixOrigin(t, -qx);
    assert VecMat(v, ms[0]) == Vec4(0.0, 0.0, 0.0, 1.0);
    OriginStays(v, ms, 6);
    assert ms[..7] == ms;
    VecMatProduct(v, ms);
  }

  /** The composed matrix of __aux_rotation leaves its pivot where it is. */
  lemma AuxRotationFixesPivot(t: Trig, p: Vec3, a: Vec3, angle: real)
    ensures Apply(AuxRotation(t, p, a, angle), p) == p
  {
    var a1 := VecMat(Homog(a), TranslationMatrix(-p.x, -p.y, -p.z));
    var qx := t.atan2d(a1.z, a1.x);
    var a2 := VecMat(a1, XRotationMatrix(t, qx));
    var qz := t.atan2d(a2.x, a2.y);
    AuxProductFixesPivot(t, p, qx, qz, angle);
  }

  /** The second point of the center rotations: the center moved by one
      along the named axis. */
  function CenterAxisPoint(c: Vec3, kind: Rotation3DType): Vec3 {
    match kind
    case CenterX => Vec3(c.x + 1.0, c.y, c.z)
    case CenterY => Vec3(c.x, c.y + 1.0, c.z)
    case _ => Vec3(c.x, c.y, c.z + 1.0)
  }

  /** The matrix rotation() builds for a type string, or None when the
      string names no rotation type. */
  function RotationMatrix(t: Trig, cs: seq<Vec3>, kind: string, angle: real, p1: Vec3, p2: Vec3): Option<Mat4>
    requires |cs| > 0
  {
    match FromName(kind)
    case None => None
    case Some(AnyAxis) => Some(AuxRotation(t, p1, p2, angle))
    case Some(X) => Some(XRotationMatrix(t, angle))
    case Some(Y) => Some(YRotationMatrix(t, angle))
    case Some(Z) => Some(ZRotationMatrix(t, angle))
    case Some(k) => Some(AuxRotation(t, Mean(cs), CenterAxisPoint(Mean(cs), k), angle))
  }

  /** rotation: the points under the chosen matrix; an unknown type string,
      such as rotation's own default "RotationType.Z", leaves them as they
      are. */
  function Rotated(t: Trig, cs: seq<Vec3>, kind: string, angle: real, p1: Vec3, p2: Vec3): (r: seq<Vec3>)
    requires |cs| > 0
    ensures |r| == |cs|
    ensures FromName(kind) == None ==> r == cs
  {
    match RotationMatrix(t, cs, kind, angle, p1, p2)
    case None => cs
    case Some(m) => CalculateCoords(cs, m)
  }

  /** Rotation about Z is the planar rotation of (x, y), z kept; rotation
      about X keeps x and rotation about Y keeps y. */
  lemma RotatedAboutAxis(t: Trig, cs: seq<Vec3>, angle: real, p1: Vec3, p2: Vec3)
    requires |cs| > 0
    ensures var c, s := t.cosd(angle), t.sind(angle);
            var r := Rotated(t, cs, Name(Z), angle, p1, p2);
            forall i :: 0 <= i < |cs| ==>
              r[i] == Vec3(cs[i].x * c - cs[i].y * s, cs[i].x * s + cs[i].y * c, cs[i].z)
    ensures var r := Rotated(t, cs, Name(X), angle, p1, p2);
            forall i :: 0 <= i < |cs| ==> r[i].x == cs[i].x
    ensures var r := Rotated(t, cs, Name(Y), angle, p1, p2);
            forall i :: 0 <= i < |cs| ==> r[i].y == cs[i].y
  {
    FromNameOfName(Z);
    FromNameOfName(X);
    FromNameOfName(Y);
  }

  lemma ZRotationApply(t: Trig, angle: real, p: Vec3)
    ensures var c, s := t.cosd(angle), t.sind(angle);
            Apply(ZRotationMatrix(t, angle), p) == Vec3(p.x * c - p.y * s, p.x * s + p.y * c, p.z)
  {
  }

  lemma XRotationApply(t: Trig, angle: real, p: Vec3)
    ensures var c, s := t.cosd(angle), t.sind(angle);
            Apply(XRotationMatrix(t, angle), p) == Vec3(p.x, p.y * c - p.z * s, p.y * s + p.z * c)
  {
  }

  lemma YRotationApply(t: Trig, angle: real, p: Vec3)
    ensures var c, s := t.cosd(angle), t.sind(angle);
            Apply(YRotationMatrix(t, angle), p) == Vec3(p.x * c + p.z * s, p.y, p.z * c - p.x * s)
  {
  }

  /** A planar rotation by (c, s) with c^2 + s^2 = 1 keeps the length of
      (u, v). */
  lemma PlanarRotationNorm(c: real, s: real, u: real, v: real, a: real, b: real)
    requires s * s + c * c == 1.0
    requires a == u * c - v * s && b == u * s + v * c
    ensures a * a + b * b == u * u + v * v
  {
    assert a * a == u * u * (c * c) - 2.0 * (u * v) * (c * s) + v * v * (s * s);
    assert b * b == u * u * (s * s) + 2.0 * (u * v) * (c * s) + v * v * (c * c);
    assert a * a + b * b == u * u * (s * s + c * c) + v * v * (s * s + c * c);
  }

  lemma ZRotationKeepsRadius(t: Trig, angle: real, p: Vec3)
    requires t.sind(angle) * t.sind(angle) + t.cosd(angle) * t.cosd(angle) == 1.0
    ensures var q := Apply(ZRotationMatrix(t, angle), p);
            q.x * q.x + q.y * q.y == p.x * p.x + p.y * p.y
  {
    var q := Apply(ZRotationMatrix(t, angle), p);
    ZRotationApply(t, angle, p);
    PlanarRotationNorm(t.cosd(angle), t.sind(angle), p.x, p.y, q.x, q.y);
  }

  lemma XRotationKeepsRadius(t: Trig, angle: real, p: Vec3)
    requires t.sind(angle) * t.sind(angle) + t.cosd(angle) * t.cosd(angle) == 1.0
    ensures var q := Apply(XRotationMatrix(t, angle), p);
            q.y * q.y + q.z * q.z == p.y * p.y + p.z * p.z
  {
    var q := Apply(XRotationMatrix(t, angle), p);
    XRotationApply(t, angle, p);
    PlanarRotationNorm(t.cosd(angle), t.sind(angle), p.y, p.z, q.y, q.z);
  }

  lemma YRotationKeepsRadius(t: Trig, angle: real, p: Vec3)
    requires t.sind(angle) * t.sind(angle) + t.cosd(angle) * t.cosd(angle) == 1.0
    ensures var q := Apply(YRotationMatrix(t, angle), p);
            q.x * q.x + q.z * q.z == p.x * p.x + p.z * p.z
  {
    var q := Apply(YRotationMatrix(t, angle), p);
    YRotationApply(t, angle, p);
    PlanarRotationNorm(t.cosd(angle), t.sind(angle), p.z, p.x, q.z, q.x);
  }

  /** Rotation about a principal axis keeps each point's distance from that
      axis. */
  lemma RotationKeepsRadius(t: Trig, angle: real, p: Vec3)
    requires OnUnitCircle(t)
    ensures var q := Apply(ZRotationMatrix(t, angle), p);
            q.x * q.x + q.y * q.y == p.x * p.x + p.y * p.y
    ensures var q := Apply(XRotationMatrix(t, angle), p);
            q.y * q.y + q.z * q.z == p.y * p.y + p.z * p.z
    ensures var q := Apply(YRotationMatrix(t, angle), p);
            q.x * q.x + q.z * q.z == p.x * p.x + p.z * p.z
  {
    ZRotationKeepsRadius(t, angle, p);
    XRotationKeepsRadius(t, angle, p);
    YRotationKeepsRadius(t, angle, p);
  }

  /** Rotations about the center leave the geometric center unchanged, and
      an any-axis rotation leaves every point equal to p1 where it is. */
  lemma RotatedKeepsPivot(t: Trig, cs: seq<Vec3>, kind: Rotation3DType, angle: real, p1: Vec3, p2: Vec3)
    requires |cs| > 0
    ensures kind in {CenterX, CenterY, CenterZ} ==>
              Mean(Rotated(t, cs, Name(kind), angle, p1, p2)) == Mean(cs)
    ensures kind == AnyAxis ==>
              forall i :: 0 <= i < |cs| && cs[i] == p1 ==> Rotated(t, cs, Name(kind), angle, p1, p2)[i] == p1
  {
    FromNameOfName(kind);
    if kind in {CenterX, CenterY, CenterZ} {
      var c := Mean(cs);
      var m := AuxRotation(t, c, CenterAxisPoint(c, kind), angle);
      MeanApply(cs, m);
      AuxRotationFixesPivot(t, c, CenterAxisPoint(c, kind), angle);
    } else if kind == AnyAxis {
      AuxRotationFixesPivot(t, p1, p2, angle);
    }
  }

  /** One queued transformation.  A translation's deltas first go through
      the supplied vector function (the camera's unrotation). */
  function ApplyOne(t: Trig, f: (real, real, real) -> Vec3, cs: seq<Vec3>, tr: Transformation): (r: seq<Vec3>)
    requires |cs| > 0
    ensures |r| == |cs|
  {
    match tr
    case Translation(dx, dy, dz) =>
      var d := f(dx, dy, dz);
      Translated(cs, d.x, d.y, d.z)
    case Rotation(kind, angle, p1, p2) => Rotated(t, cs, kind, angle, p1, p2)
    case Scaling(sx, sy, sz) => Scaled(cs, sx, sy, sz)
  }

  /** apply_transformations: the queue applied front to back. */
  function ApplyAll(t: Trig, f: (real, real, real) -> Vec3, cs: seq<Vec3>, trs: seq<Transformation>): (r: seq<Vec3>)
    requires |cs| > 0
    ensures |r| == |cs|
    decreases |trs|
  {
    if trs == [] then cs else ApplyAll(t, f, ApplyOne(t, f, cs, trs[0]), trs[1..])
  }

  /** Translation and scaling requests built with their defaults: a
      two-value translation moves every point by the image of (dx, dy, 0),
      and a two-value scaling (sz = 1) scales x and y about the geometric
      center, keeps every z, and leaves the center where it was. */
  lemma DefaultMovesApplied(t: Trig, f: (real, real, real) -> Vec3, cs: seq<Vec3>,
                            dx: real, dy: real, sx: real, sy: real)
    requires |cs| > 0
    ensures var d, r := f(dx, dy, 0.0), ApplyOne(t, f, cs, Translation(dx, dy));
            forall i :: 0 <= i < |cs| ==> r[i] == Vec3(cs[i].x + d.x, cs[i].y + d.y, cs[i].z + d.z)
    ensures var c, r := Mean(cs), ApplyOne(t, f, cs, Scaling(sx, sy));
            forall i :: 0 <= i < |cs| ==>
              r[i] == Vec3(c.x + sx * (cs[i].x - c.x), c.y + sy * (cs[i].y - c.y), cs[i].z)
    ensures Mean(ApplyOne(t, f, cs, Scaling(sx, sy))) == Mean(cs)
  {
    ScaledPoints(cs, sx, sy, 1.0);
    ScaledKeepsCenter(cs, sx, sy, 1.0);
  }

  /** Rotation requests built with their default axis points: an any-axis
      rotation about the origin-to-origin axis keeps a point at the origin
      where it is, and a type string that names no rotation leaves every
      point where it is. */
  lemma DefaultRotationApplied(t: Trig, f: (real, real, real) -> Vec3, cs: seq<Vec3>,
                               kind: string, angle: real)
    requires |cs| > 0
    ensures var o, r := Vec3(0.0, 0.0, 0.0), ApplyOne(t, f, cs, Rotation(Name(AnyAxis), angle));
            forall i :: 0 <= i < |cs| && cs[i] == o ==> r[i] == o
    ensures FromName(kind) == None ==> ApplyOne(t, f, cs, Rotation(kind, angle)) == cs
  {
    var o := Vec3(0.0, 0.0, 0.0);
    RotationRequest(t, f, cs, Name(AnyAxis), angle, o, o);
    RotationRequest(t, f, cs, kind, angle, o, o);
    RotatedKeepsPivot(t, cs, AnyAxis, angle, o, o);
  }

  /** A rotation request is applied as the rotation of the points. */
  lemma RotationRequest(t: Trig, f: (real, real, real) -> Vec3, cs: seq<Vec3>,
                        kind: string, angle: real, p1: Vec3, p2: Vec3)
    requires |cs| > 0
    ensures ApplyOne(t, f, cs, Rotation(kind, angle, p1, p2)) == Rotated(t, cs, kind, angle, p1, p2)
  {
  }

  /** Applying two queues one after the other is applying their
      concatenation: the order of the queue is the order of application. */
  lemma {:induction false} ApplyAllAppend(t: Trig, f: (real, real, real) -> Vec3, cs: seq<Vec3>,
                                          a: seq<Transformation>, b: seq<Transformation>)
    requires |cs| > 0
    ensures ApplyAll(t, f, cs, a + b) == ApplyAll(t, f, ApplyAll(t, f, cs, a), b)
    decreases |a|
  {
    if a != [] {
      assert (a + b)[0] == a[0] && (a + b)[1..] == a[1..] + b;
      ApplyAllAppend(t, f, ApplyOne(t, f, cs, a[0]), a[1..], b);
    } else {
      assert a + b == b;
    }
  }

  // ---------------------------------------------------------------------
  // Perspective divide and normalisation
  // ---------------------------------------------------------------------

  /** The homogeneous coordinate Mper gives a point (column product). */
  function PerspectiveW(mper: Mat4, p: Vec3): real {
    MatVec(mper, Homog(p)).w
  }

  /** One projected point: Mper . [x, y, z, 1] = (x', y', z', w), then the
      first two entries of [x'/w, y'/w, d, 1] . N. */
  function Projected(p: Vec3, d: real, mper: Mat4, n: Mat4): Point2
    requires PerspectiveW(mper, p) != 0.0
  {
    var h := MatVec(mper, Homog(p));
    var q := VecMat(Vec4(h.x / h.w, h.y / h.w, d, 1.0), n);
    Point2(q.x, q.y)
  }

  /** No point in front of the projection plane divides by zero. */
  ghost predicate Divisible(cs: seq<Vec3>, d: real, mper: Mat4) {
    forall i :: 0 <= i < |cs| && cs[i].z >= d ==> PerspectiveW(mper, cs[i]) != 0.0
  }

  /** calculate_perspective_normalized_coords: nothing at all as soon as one
      point lies behind the plane z = d; otherwise every point projected, in
      order. */
  function PerspectiveNormalized(cs: seq<Vec3>, d: real, mper: Mat4, n: Mat4): (r: seq<Point2>)
    requires Divisible(cs, d, mper)
    ensures (exists i :: 0 <= i < |cs| && cs[i].z < d) ==> r == []
    ensures (forall i :: 0 <= i < |cs| ==> cs[i].z >= d) ==>
              |r| == |cs| && forall i :: 0 <= i < |cs| ==> r[i] == Projected(cs[i], d, mper, n)
  {
    if exists i :: 0 <= i < |cs| && cs[i].z < d then []
    else seq(|cs|, i requires 0 <= i < |cs| => Projected(cs[i], d, mper, n))
  }

  // ---------------------------------------------------------------------
  // The object
  // ---------------------------------------------------------------------

  class Objeto3D {
    var name: string
    var coords: seq<Vec3>
    var objType: ObjectType
    var color: string
    var edges: seq<(int, int)>
    var edgeOrderMatter: bool

    ghost predicate Valid()
      reads this
    {
      |coords| > 0
    }

    /** Builds an object from raw coordinates.  Without edges the points are
        joined in a closed cycle and edge order does not matter; given edges
        are kept as they are and their order matters. */
    constructor(nameIn: Option<string>, coordsIn: seq<seq<real>>, typeIn: ObjectType,
                colorIn: string := "#000000", edgesIn: seq<(int, int)> := [])
      ensures Valid()
      ensures name == CertifiedName(nameIn)
      ensures coords == CertifiedCoords(coordsIn)
      ensures objType == CertifiedType(|coords|, typeIn)
      ensures color == colorIn
      ensures edgesIn != [] ==> edges == edgesIn && edgeOrderMatter
      ensures edgesIn == [] ==> edges == EdgeCycle(|coords|) && !edgeOrderMatter
    {
      new;
      CertifyFormat(nameIn, coordsIn, typeIn);
      color := colorIn;
      edges := edgesIn;
      edgeOrderMatter := true;
      if edges == [] {
        edgeOrderMatter := false;
        var n := |coords|;
        edges := seq(n, i requires 0 <= i < n => (i, (i + 1) % n));
      }
    }

    /** certify_format: fixes the name, the coordinate list and the type tag
        by the rules above. */
    method CertifyFormat(nameIn: Option<string>, coordsIn: seq<seq<real>>, typeIn: ObjectType)
      modifies this`name, this`coords, this`objType
      ensures name == CertifiedName(nameIn)
      ensures coords == CertifiedCoords(coordsIn)
      ensures objType == CertifiedType(|coords|, typeIn)
    {
      var cs := coordsIn;
      var nm := if nameIn.Some? then nameIn.value else "obj";
      if |cs| == 0 {
        cs := [[0.0, 0.0, 0.0]];
      }
      var t := typeIn;
      if |cs| == 1 && t != Point {
        t := Point;
      }
      if |cs| == 2 && t != Line {
        t := Line;
      }
      if |cs| > 2 && (t == Point || t == Line) {
        t := Wireframe;
      }
      var pts: seq<Vec3> := [];
      for i := 0 to |cs|
        invariant |pts| == i
        invariant forall k :: 0 <= k < i ==> pts[k] == CertifiedPoint(cs[k])
      {
        var v := PadPoint(cs[i]);
        pts := pts + [v];
      }
      name := nm;
      coords := pts;
      objType := t;
    }

    /** The inner loop of certify_format, as intended: zeros are appended
        until the point has three values. */
    static method PadPoint(c: seq<real>) returns (v: Vec3)
      ensures v == CertifiedPoint(c)
    {
      var p := c;
      while |p| < 3
        invariant |p| <= 3 ==> p == c + Zeros(|p| - |c|)
        invariant |c| <= |p| && (|c| < 3 ==> |p| <= 3)
        invariant |c| >= 3 ==> p == c
        decreases 3 - |p|
      {
        p := p + [0.0];
      }
      v := Vec3(p[0], p[1], p[2]);
    }

    /** geometric_center */
    function GeometricCenter(): Vec3
      reads this
      requires Valid()
    {
      Mean(coords)
    }

    /** translation */
    method Translation(dx: real, dy: real, dz: real := 0.0)
      requires Valid()
      modifies this`coords
      ensures Valid()
      ensures coords == Translated(old(coords), dx, dy, dz)
    {
      var m := TranslationMatrix(dx, dy, dz);
      coords := CalculateCoords(coords, m);
    }

    /** scaling; note that sz defaults to 0 here. */
    method Scaling(sx: real, sy: real, sz: real := 0.0)
      requires Valid()
      modifies this`coords
      ensures Valid()
      ensures coords == Scaled(old(coords), sx, sy, sz)
    {
      var c := GeometricCenter();
      var m := Product([TranslationMatrix(-c.x, -c.y, -c.z), ScalingMatrix(sx, sy, sz),
                        TranslationMatrix(c.x, c.y, c.z)]);
      ScalingAboutIsProduct(c, sx, sy, sz);
      coords := CalculateCoords(coords, m);
    }

    /** The matrix rotation() picks for a type's text, or None when the
        text names no rotation type; the center kinds pivot on the current
        geometric center. */
    method RotationMatrixFor(t: Trig, kind: string, angle: real, p1: Vec3, p2: Vec3) returns (m: Option<Mat4>)
      requires Valid()
      ensures m == RotationMatrix(t, coords, kind, angle, p1, p2)
    {
      var k := FromName(kind);
      if k == Some(AnyAxis) {
        m := Some(AuxRotation(t, p1, p2, angle));
      } else if k == Some(X) {
        m := Some(XRotationMatrix(t, angle));
      } else if k == Some(Y) {
        m := Some(YRotationMatrix(t, angle));
      } else if k == Some(Z) {
        m := Some(ZRotationMatrix(t, angle));
      } else if k == Some(CenterX) {
        var c := GeometricCenter();
        m := Some(AuxRotation(t, c, CenterAxisPoint(c, CenterX), angle));
      } else if k == Some(CenterY) {
        var c := GeometricCenter();
        m := Some(AuxRotation(t, c, CenterAxisPoint(c, CenterY), angle));
      } else if k == Some(CenterZ) {
        var c := GeometricCenter();
        m := Some(AuxRotation(t, c, CenterAxisPoint(c, CenterZ), angle));
      } else {
        m := None;
      }
    }

    /** rotation: an unknown type text returns without touching the
        coordinates; note that the default text "RotationType.Z" is one. */
    method Rotation(t: Trig, kind: string := "RotationType.Z", angle: real := 90.0,
                    p1: Vec3 := Vec3(0.0, 0.0, 0.0), p2: Vec3 := Vec3(0.0, 0.0, 0.0))
      requires Valid()
      modifies this`coords
      ensures Valid()
      ensures coords == Rotated(t, old(coords), kind, angle, p1, p2)
    {
      var m := RotationMatrixFor(t, kind, angle, p1, p2);
      if m.None? {
        return;
      }
      coords := CalculateCoords(coords, m.value);
    }

    /** One request of apply_transformations, dispatched on its kind;
        a translation's deltas go through the vector function f first. */
    method ApplyTransformation(t: Trig, tr: Transformation, f: (real, real, real) -> Vec3)
      requires Valid()
      modifies this`coords
      ensures Valid()
      ensures coords == ApplyOne(t, f, old(coords), tr)
    {
      match tr
      case Translation(dx, dy, dz) =>
        var d := f(dx, dy, dz);
        Translation(d.x, d.y, d.z);
      case Rotation(kind, angle, q1, q2) =>
        Rotation(t, kind, angle, q1, q2);
      case Scaling(sx, sy, sz) =>
        Scaling(sx, sy, sz);
    }

    /** apply_transformations: each queued request in turn, front to
        back. */
    method ApplyTransformations(t: Trig, trs: seq<Transformation>, f: (real, real, real) -> Vec3)
      requires Valid()
      modifies this`coords
      ensures Valid()
      ensures coords == ApplyAll(t, f, old(coords), trs)
    {
      for i := 0 to |trs|
        invariant Valid()
        invariant ApplyAll(t, f, coords, trs[i..]) == ApplyAll(t, f, old(coords), trs)
      {
        assert trs[i..][0] == trs[i] && trs[i..][1..] == trs[i + 1..];
        ApplyTransformation(t, trs[i], f);
      }
    }

    /** calculate_perspective_normalized_coords */
    method PerspectiveNormalizedCoords(d: real, mper: Mat4, n: Mat4) returns (r: seq<Point2>)
      requires Divisible(coords, d, mper)
      ensures r == PerspectiveNormalized(coords, d, mper, n)
    {
      r := [];
      for i := 0 to |coords|
        invariant |r| == i
        invariant forall k :: 0 <= k < i ==> coords[k].z >= d && r[k] == Projected(coords[k], d, mper, n)
      {
        var p := coords[i];
        if p.z < d {
          return [];
        }
        var h := MatVec(mper, Homog(p));
        var q := VecMat(Vec4(h.x / h.w, h.y / h.w, d, 1.0), n);
        r := r + [Point2(q.x, q.y)];
      }
    }
  }
}
