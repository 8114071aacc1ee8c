/** Points, homogeneous 4-vectors and 4x4 matrices over the reals.
    The editor multiplies row vectors by matrices (v' = v . M); the column
    product M . v appears once, for the perspective matrix. */
module LinAlg {

  /** A point of the projected (normalized) plane. */
  datatype Point2 = Point2(x: real, y: real)

  /** A world-space point. */
  datatype Vec3 = Vec3(x: real, y: real, z: real)

  datatype Vec4 = Vec4(x: real, y: real, z: real, w: real)

  /** A 4x4 matrix, stored row by row. */
  datatype Mat4 = Mat4(r0: Vec4, r1: Vec4, r2: Vec4, r3: Vec4)

  /** Row vector times matrix: entry j is v dotted with column j of m. */
  function VecMat(v: Vec4, m: Mat4): Vec4 {
    Vec4(v.x * m.r0.x + v.y * m.r1.x + v.z * m.r2.x + v.w * m.r3.x,
         v.x * m.r0.y + v.y * m.r1.y + v.z * m.r2.y + v.w * m.r3.y,
         v.x * m.r0.z + v.y * m.r1.z + v.z * m.r2.z + v.w * m.r3.z,
         v.x * m.r0.w + v.y * m.r1.w + v.z * m.r2.w + v.w * m.r3.w)
  }

  /** Matrix times column vector: entry i is row i of m dotted with v. */
  function MatVec(m: Mat4, v: Vec4): Vec4 {
    Vec4(m.r0.x * v.x + m.r0.y * v.y + m.r0.z * v.z + m.r0.w * v.w,
         m.r1.x * v.x + m.r1.y * v.y + m.r1.z * v.z + m.r1.w * v.w,
         m.r2.x * v.x + m.r2.y * v.y + m.r2.z * v.z + m.r2.w * v.w,
         m.r3.x * v.x + m.r3.y * v.y + m.r3.z * v.z + m.r3.w * v.w)
  }

  /** Matrix product a . b: row i of the product is row i of a times b. */
  function MatMul(a: Mat4, b: Mat4): Mat4 {
    Mat4(VecMat(a.r0, b), VecMat(a.r1, b), VecMat(a.r2, b), VecMat(a.r3, b))
  }

  const Identity: Mat4 :=
    Mat4(Vec4(1.0, 0.0, 0.0, 0.0), Vec4(0.0, 1.0, 0.0, 0.0),
         Vec4(0.0, 0.0, 1.0, 0.0), Vec4(0.0, 0.0, 0.0, 1.0))

  /** k times the first entry of r . b, multiplied out. */
  lemma ScaleEntryX(k: real, r: Vec4, b: Mat4)
    ensures k * VecMat(r, b).x == k * r.x * b.r0.x + k * r.y * b.r1.x + k * r.z * b.r2.x + k * r.w * b.r3.x
  {
  }

  /** An entry of v . a times k, multiplied out (one lemma per entry). */
  lemma EntryScaleX(k: real, v: Vec4, a: Mat4)
    ensures VecMat(v, a).x * k == v.x * a.r0.x * k + v.y * a.r1.x * k + v.z * a.r2.x * k + v.w * a.r3.x * k
  {
  }

  lemma EntryScaleY(k: real, v: Vec4, a: Mat4)
    ensures VecMat(v, a).y * k == v.x * a.r0.y * k + v.y * a.r1.y * k + v.z * a.r2.y * k + v.w * a.r3.y * k
  {
  }

  lemma EntryScaleZ(k: real, v: Vec4, a: Mat4)
    ensures VecMat(v, a).z * k == v.x * a.r0.z * k + v.y * a.r1.z * k + v.z * a.r2.z * k + v.w * a.r3.z * k
  {
  }

  lemma EntryScaleW(k: real, v: Vec4, a: Mat4)
    ensures VecMat(v, a).w * k == v.x * a.r0.w * k + v.y * a.r1.w * k + v.z * a.r2.w * k + v.w * a.r3.w * k
  {
  }

  /** The first entry of v . (a . b), by the rows of a . b. */
  lemma LeftRowsX(v: Vec4, a: Mat4, b: Mat4)
    ensures VecMat(v, MatMul(a, b)).x
         == v.x * VecMat(a.r0, b).x + v.y * VecMat(a.r1, b).x + v.z * VecMat(a.r2, b).x + v.w * VecMat(a.r3, b).x
  {
  }

  /** The multiplied-out form of the first entry of v . (a . b), in
      halves: rows 0 and 1 of a, then rows 2 and 3. */
  lemma LeftHalfAX(v: Vec4, a: Mat4, b: Mat4)
    ensures v.x * VecMat(a.r0, b).x + v.y * VecMat(a.r1, b).x
         == v.x * a.r0.x * b.r0.x + v.x * a.r0.y * b.r1.x + v.x * a.r0.z * b.r2.x + v.x * a.r0.w * b.r3.x
          + v.y * a.r1.x * b.r0.x + v.y * a.r1.y * b.r1.x + v.y * a.r1.z * b.r2.x + v.y * a.r1.w * b.r3.x
  {
    ScaleEntryX(v.x, a.r0, b);
    ScaleEntryX(v.y, a.r1, b);
  }

  lemma LeftHalfBX(v: Vec4, a: Mat4, b: Mat4)
    ensures v.z * VecMat(a.r2, b).x + v.w * VecMat(a.r3, b).x
         == v.z * a.r2.x * b.r0.x + v.z * a.r2.y * b.r1.x + v.z * a.r2.z * b.r2.x + v.z * a.r2.w * b.r3.x
          + v.w * a.r3.x * b.r0.x + v.w * a.r3.y * b.r1.x + v.w * a.r3.z * b.r2.x + v.w * a.r3.w * b.r3.x
  {
    ScaleEntryX(v.z, a.r2, b);
    ScaleEntryX(v.w, a.r3, b);
  }

  lemma LeftSumX(v: Vec4, a: Mat4, b: Mat4)
    ensures v.x * VecMat(a.r0, b).x + v.y * VecMat(a.r1, b).x + v.z * VecMat(a.r2, b).x + v.w * VecMat(a.r3, b).x
         == v.x * a.r0.x * b.r0.x + v.x * a.r0.y * b.r1.x + v.x * a.r0.z * b.r2.x + v.x * a.r0.w * b.r3.x
          + v.y * a.r1.x * b.r0.x + v.y * a.r1.y * b.r1.x + v.y * a.r1.z * b.r2.x + v.y * a.r1.w * b.r3.x
          + v.z * a.r2.x * b.r0.x + v.z * a.r2.y * b.r1.x + v.z * a.r2.z * b.r2.x + v.z * a.r2.w * b.r3.x
          + v.w * a.r3.x * b.r0.x + v.w * a.r3.y * b.r1.x + v.w * a.r3.z * b.r2.x + v.w * a.r3.w * b.r3.x
  {
    LeftHalfAX(v, a, b);
    LeftHalfBX(v, a, b);
  }

  /** The first entry of v . (a . b) and of (v . a) . b are the same sum
      of sixteen products. */
  lemma LeftX(v: Vec4, a: Mat4, b: Mat4)
    ensures VecMat(v, MatMul(a, b)).x
         == v.x * a.r0.x * b.r0.x + v.x * a.r0.y * b.r1.x + v.x * a.r0.z * b.r2.x + v.x * a.r0.w * b.r3.x
          + v.y * a.r1.x * b.r0.x + v.y * a.r1.y * b.r1.x + v.y * a.r1.z * b.r2.x + v.y * a.r1.w * b.r3.x
          + v.z * a.r2.x * b.r0.x + v.z * a.r2.y * b.r1.x + v.z * a.r2.z * b.r2.x + v.z * a.r2.w * b.r3.x
          + v.w * a.r3.x * b.r0.x + v.w * a.r3.y * b.r1.x + v.w * a.r3.z * b.r2.x + v.w * a.r3.w * b.r3.x
  {
    LeftRowsX(v, a, b);
    LeftSumX(v, a, b);
  }

  /** The first entry of (v . a) . b, by the entries of v . a. */
  lemma RightRowsX(v: Vec4, a: Mat4, b: Mat4)
    ensures VecMat(VecMat(v, a), b).x
         == VecMat(v, a).x * b.r0.x + VecMat(v, a).y * b.r1.x + VecMat(v, a).z * b.r2.x + VecMat(v, a).w * b.r3.x
  {
  }

  /** The multiplied-out form of the first entry of (v . a) . b, in halves:
      rows 0 and 1 of b, then rows 2 and 3. */
  lemma RightHalfAX(v: Vec4, a: Mat4, b: Mat4)
    ensures VecMat(v, a).x * b.r0.x + VecMat(v, a).y * b.r1.x
         == v.x * a.r0.x * b.r0.x + v.y * a.r1.x * b.r0.x + v.z * a.r2.x * b.r0.x + v.w * a.r3.x * b.r0.x
          + v.x * a.r0.y * b.r1.x + v.y * a.r1.y * b.r1.x + v.z * a.r2.y * b.r1.x + v.w * a.r3.y * b.r1.x
  {
    EntryScaleX(b.r0.x, v, a);
    EntryScaleY(b.r1.x, v, a);
  }

  lemma RightHalfBX(v: Vec4, a: Mat4, b: Mat4)
    ensures VecMat(v, a).z * b.r2.x + VecMat(v, a).w * b.r3.x
         == v.x * a.r0.z * b.r2.x + v.y * a.r1.z * b.r2.x + v.z * a.r2.z * b.r2.x + v.w * a.r3.z * b.r2.x
          + v.x * a.r0.w * b.r3.x + v.y * a.r1.w * b.r3.x + v.z * a.r2.w * b.r3.x + v.w * a.r3.w * b.r3.x
  {
    EntryScaleZ(b.r2.x, v, a);
    EntryScaleW(b.r3.x, v, a);
  }

  lemma RightX(v: Vec4, a: Mat4, b: Mat4)
    ensures VecMat(VecMat(v, a), b).x
         == v.x * a.r0.x * b.r0.x + v.x * a.r0.y * b.r1.x + v.x * a.r0.z * b.r2.x + v.x * a.r0.w * b.r3.x
          + v.y * a.r1.x * b.r0.x + v.y * a.r1.y * b.r1.x + v.y * a.r1.z * b.r2.x + v.y * a.r1.w * b.r3.x
          + v.z * a.r2.x * b.r0.x + v.z * a.r2.y * b.r1.x + v.z * a.r2.z * b.r2.x + v.z * a.r2.w * b.r3.x
          + v.w * a.r3.x * b.r0.x + v.w * a.r3.y * b.r1.x + v.w * a.r3.z * b.r2.x + v.w * a.r3.w * b.r3.x
  {
    RightRowsX(v, a, b);
    RightHalfAX(v, a, b);
    RightHalfBX(v, a, b);
  }

  /** Associativity for the first entry. */
  lemma VecMatMulX(v: Vec4, a: Mat4, b: Mat4)
    ensures VecMat(v, MatMul(a, b)).x == VecMat(VecMat(v, a), b).x
  {
    LeftX(v, a, b);
    RightX(v, a, b);
  }

  /** b with its columns rotated one place left: column j of the result is
      column j + 1 of b. */
  function Shift(b: Mat4): Mat4 {
    Mat4(Vec4(b.r0.y, b.r0.z, b.r0.w, b.r0.x), Vec4(b.r1.y, b.r1.z, b.r1.w, b.r1.x),
         Vec4(b.r2.y, b.r2.z, b.r2.w, b.r2.x), Vec4(b.r3.y, b.r3.z, b.r3.w, b.r3.x))
  }

  /** Shifting b shifts the entries of v . b. */
  lemma VecMatShift(v: Vec4, b: Mat4)
    ensures VecMat(v, Shift(b)) == Vec4(VecMat(v, b).y, VecMat(v, b).z, VecMat(v, b).w, VecMat(v, b).x)
  {
  }

  /** Shifting b shifts the columns of a . b. */
  lemma MatMulShift(a: Mat4, b: Mat4)
    ensures MatMul(a, Shift(b)) == Shift(MatMul(a, b))
  {
    VecMatShift(a.r0, b);
    VecMatShift(a.r1, b);
    VecMatShift(a.r2, b);
    VecMatShift(a.r3, b);
  }

  /** Associativity for the first entry with b shifted gives it for the
      second entry of b itself. */
  lemma VecMatMulShifted(v: Vec4, a: Mat4, b: Mat4)
    requires VecMat(v, MatMul(a, Shift(b))).x == VecMat(VecMat(v, a), Shift(b)).x
    ensures VecMat(v, MatMul(a, b)).y == VecMat(VecMat(v, a), b).y
  {
    MatMulShift(a, b);
    VecMatShift(v, MatMul(a, b));
    VecMatShift(VecMat(v, a), b);
  }

  /** Multiplying by a product is multiplying by each factor in turn: the
      first entry directly, the others by shifting columns of b into first
      place. */
  lemma VecMatMul(v: Vec4, a: Mat4, b: Mat4)
    ensures VecMat(v, MatMul(a, b)) == VecMat(VecMat(v, a), b)
  {
    var b1 := Shift(b);
    var b2 := Shift(b1);
    var b3 := Shift(b2);
    VecMatMulX(v, a, b);
    VecMatMulX(v, a, b1);
    VecMatMulShifted(v, a, b);
    VecMatMulX(v, a, b2);
    VecMatMulShifted(v, a, b1);
    VecMatMulX(v, a, b3);
    VecMatMulShifted(v, a, b2);
    MatMulShift(a, b); MatMulShift(a, b1);
    VecMatShift(v, MatMul(a, b)); VecMatShift(VecMat(v, a), b);
    VecMatShift(v, MatMul(a, b1)); VecMatShift(VecMat(v, a), b1);
  }

  /** The left-to-right product ms[0] . ms[1] . ... of a non-empty list of
      matrices, the order in which a chain of `@` or nested matmul calls
      evaluates. */
  function Product(ms: seq<Mat4>): Mat4
    requires |ms| > 0
    decreases |ms|
  {
    if |ms| == 1 then ms[0] else MatMul(Product(ms[..|ms| - 1]), ms[|ms| - 1])
  }

  /** A product of three factors, written out. */
  lemma ProductOfThree(a: Mat4, b: Mat4, c: Mat4)
    ensures Product([a, b, c]) == MatMul(MatMul(a, b), c)
  {
    assert [a, b, c][..2] == [a, b];
    assert [a, b][..1] == [a];
    assert Product([a, b]) == MatMul(a, b);
  }

  /** Multiplying by a product of several factors is multiplying by the
      product of all but the last, then by the last. */
  lemma VecMatProduct(v: Vec4, ms: seq<Mat4>)
    requires |ms| > 1
    ensures VecMat(v, Product(ms)) == VecMat(VecMat(v, Product(ms[..|ms| - 1])), ms[|ms| - 1])
  {
    VecMatMul(v, Product(ms[..|ms| - 1]), ms[|ms| - 1]);
  }
  function Transpose(m: Mat4): Mat4 {
    Mat4(Vec4(m.r0.x, m.r1.x, m.r2.x, m.r3.x), Vec4(m.r0.y, m.r1.y, m.r2.y, m.r3.y),
         Vec4(m.r0.z, m.r1.z, m.r2.z, m.r3.z), Vec4(m.r0.w, m.r1.w, m.r2.w, m.r3.w))
  }

  function Dot(u: Vec4, v: Vec4): real {
    u.x * v.x + u.y * v.y + u.z * v.z + u.w * v.w
  }

  /** The column product with a transposed matrix is the row product. */
  lemma MatVecTranspose(m: Mat4, v: Vec4)
    ensures MatVec(Transpose(m), v) == VecMat(v, m)
  {
  }

  /** The first two terms of (u . m) . v, multiplied out. */
  lemma DotHalfA(u: Vec4, m: Mat4, v: Vec4)
    ensures VecMat(u, m).x * v.x + VecMat(u, m).y * v.y
         == u.x * m.r0.x * v.x + u.y * m.r1.x * v.x + u.z * m.r2.x * v.x + u.w * m.r3.x * v.x
          + u.x * m.r0.y * v.y + u.y * m.r1.y * v.y + u.z * m.r2.y * v.y + u.w * m.r3.y * v.y
  {
    EntryScaleX(v.x, u, m);
    EntryScaleY(v.y, u, m);
  }

  /** The last two terms of (u . m) . v, multiplied out. */
  lemma DotHalfB(u: Vec4, m: Mat4, v: Vec4)
    ensures VecMat(u, m).z * v.z + VecMat(u, m).w * v.w
         == u.x * m.r0.z * v.z + u.y * m.r1.z * v.z + u.z * m.r2.z * v.z + u.w * m.r3.z * v.z
          + u.x * m.r0.w * v.w + u.y * m.r1.w * v.w + u.z * m.r2.w * v.w + u.w * m.r3.w * v.w
  {
    EntryScaleZ(v.z, u, m);
    EntryScaleW(v.w, u, m);
  }

  /** The bilinear form (u . m) . v, multiplied out. */
  lemma DotVecMatExpanded(u: Vec4, m: Mat4, v: Vec4)
    ensures Dot(VecMat(u, m), v)
         == u.x * m.r0.x * v.x + u.y * m.r1.x * v.x + u.z * m.r2.x * v.x + u.w * m.r3.x * v.x
          + u.x * m.r0.y * v.y + u.y * m.r1.y * v.y + u.z * m.r2.y * v.y + u.w * m.r3.y * v.y
          + u.x * m.r0.z * v.z + u.y * m.r1.z * v.z + u.z * m.r2.z * v.z + u.w * m.r3.z * v.z
          + u.x * m.r0.w * v.w + u.y * m.r1.w * v.w + u.z * m.r2.w * v.w + u.w * m.r3.w * v.w
  {
    DotHalfA(u, m, v);
    DotHalfB(u, m, v);
  }

  /** The first two terms of (u . m^T) . v, multiplied out with the factors
      in the order of (v . m) . u. */
  lemma DotTransposeHalfA(u: Vec4, m: Mat4, v: Vec4)
    ensures VecMat(u, Transpose(m)).x * v.x + VecMat(u, Transpose(m)).y * v.y
         == v.x * m.r0.x * u.x + v.x * m.r0.y * u.y + v.x * m.r0.z * u.z + v.x * m.r0.w * u.w
          + v.y * m.r1.x * u.x + v.y * m.r1.y * u.y + v.y * m.r1.z * u.z + v.y * m.r1.w * u.w
  {
    EntryScaleX(v.x, u, Transpose(m));
    EntryScaleY(v.y, u, Transpose(m));
  }

  /** The last two terms of (u . m^T) . v, likewise. */
  lemma DotTransposeHalfB(u: Vec4, m: Mat4, v: Vec4)
    ensures VecMat(u, Transpose(m)).z * v.z + VecMat(u, Transpose(m)).w * v.w
         == v.z * m.r2.x * u.x + v.z * m.r2.y * u.y + v.z * m.r2.z * u.z + v.z * m.r2.w * u.w
          + v.w * m.r3.x * u.x + v.w * m.r3.y * u.y + v.w * m.r3.z * u.z + v.w * m.r3.w * u.w
  {
    EntryScaleZ(v.z, u, Transpose(m));
    EntryScaleW(v.w, u, Transpose(m));
  }

  /** Summing a table of sixteen numbers row by row or column by column
      gives the same total. */
  lemma Regroup(p: Mat4)
    ensures (p.r0.x + p.r0.y + p.r0.z + p.r0.w) + (p.r1.x + p.r1.y + p.r1.z + p.r1.w)
          + ((p.r2.x + p.r2.y + p.r2.z + p.r2.w) + (p.r3.x + p.r3.y + p.r3.z + p.r3.w))
         == (p.r0.x + p.r1.x + p.r2.x + p.r3.x) + (p.r0.y + p.r1.y + p.r2.y + p.r3.y)
          + (p.r0.z + p.r1.z + p.r2.z + p.r3.z) + (p.r0.w + p.r1.w + p.r2.w + p.r3.w)
  {
  }

  /** Transposing the matrix of a bilinear form swaps its arguments. */
  lemma DotTranspose(u: Vec4, m: Mat4, v: Vec4)
    ensures Dot(VecMat(u, Transpose(m)), v) == Dot(VecMat(v, m), u)
  {
    DotTransposeHalfA(u, m, v);
    DotTransposeHalfB(u, m, v);
    DotVecMatExpanded(v, m, u);
    Regroup(Mat4(Vec4(v.x * m.r0.x * u.x, v.x * m.r0.y * u.y, v.x * m.r0.z * u.z, v.x * m.r0.w * u.w),
                 Vec4(v.y * m.r1.x * u.x, v.y * m.r1.y * u.y, v.y * m.r1.z * u.z, v.y * m.r1.w * u.w),
                 Vec4(v.z * m.r2.x * u.x, v.z * m.r2.y * u.y, v.z * m.r2.z * u.z, v.z * m.r2.w * u.w),
                 Vec4(v.w * m.r3.x * u.x, v.w * m.r3.y * u.y, v.w * m.r3.z * u.z, v.w * m.r3.w * u.w)));
  }

  lemma DotSymmetric(u: Vec4, v: Vec4)
    ensures Dot(u, v) == Dot(v, u)
  {
  }

  function Add(u: Vec4, v: Vec4): Vec4 {
    Vec4(u.x + v.x, u.y + v.y, u.z + v.z, u.w + v.w)
  }

  /** Entry q of the row product is the dot product with column q. */
  lemma VecMatColumns(u: Vec4, m: Mat4)
    ensures VecMat(u, m) == Vec4(Dot(u, Transpose(m).r0), Dot(u, Transpose(m).r1), Dot(u, Transpose(m).r2), Dot(u, Transpose(m).r3))
  {
  }

  /** One column of the row product distributes over a sum. */
  lemma DotAdd(u: Vec4, v: Vec4, c: Vec4)
    ensures Dot(u, c) + Dot(v, c) == Dot(Add(u, v), c)
  {
    assert (u.x + v.x) * c.x == u.x * c.x + v.x * c.x;
    assert (u.y + v.y) * c.y == u.y * c.y + v.y * c.y;
    assert (u.z + v.z) * c.z == u.z * c.z + v.z * c.z;
    assert (u.w + v.w) * c.w == u.w * c.w + v.w * c.w;
  }

  /** The row product distributes over a sum of row vectors. */
  lemma VecMatAdd(u: Vec4, v: Vec4, m: Mat4)
    ensures Add(VecMat(u, m), VecMat(v, m)) == VecMat(Add(u, v), m)
  {
    var t := Transpose(m);
    VecMatColumns(u, m);
    VecMatColumns(v, m);
    VecMatColumns(Add(u, v), m);
    DotAdd(u, v, t.r0);
    DotAdd(u, v, t.r1);
    DotAdd(u, v, t.r2);
    DotAdd(u, v, t.r3);
  }
}
