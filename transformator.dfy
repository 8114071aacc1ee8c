/** The camera: centre of the window in world space, centre of projection,
    view-plane normal, view-up vector and its angle, the zoom (scaling
    factor), the perspective matrix Mper and the normalisation matrix that
    maps world coordinates to the normalised plane. */
module Camera {
  import opened LinAlg
  import Trig
  import opened Objects

  /** Mper for a projection-plane distance dop: the identity except for its
      last row (0, 0, 1/dop, 0). */
  function PerspectiveMatrix(dop: real): Mat4
    requires dop != 0.0
  {
    Mat4(Vec4(1.0, 0.0, 0.0, 0.0), Vec4(0.0, 1.0, 0.0, 0.0),
         Vec4(0.0, 0.0, 1.0, 0.0), Vec4(0.0, 0.0, 1.0 / dop, 0.0))
  }

  /** The view-up angle of a view-up vector: minus the angle, in degrees,
      between the vector and the positive y axis. */
  function ViewUpAngle(t: Trig.Trig, v: Vec4): real {
    -1.0 * (90.0 - t.atan2d(v.y, v.x))
  }

  /** __get_parallel_projection_matrix for a centre of projection and a
      view-plane normal: T(-cop) . Rx(-Qx) . Ry(-Qy), with Qx and Qy the
      angles of the direction from (cop.x, cop.y, 0) to the normal. */
  function ParallelProjection(t: Trig.Trig, cop: Vec4, vpn: Vec3): Mat4 {
    var q := VectorAngle(t, Vec3(cop.x, cop.y, 0.0), vpn);
    Product([TranslationMatrix(-cop.x, -cop.y, -cop.z), XRotationMatrix(t, -q.x),
             YRotationMatrix(t, -q.y)])
  }

  /** Whenever the normal stands straight above the centre of projection,
      the two turns vanish and the parallel projection is only the
      translation by -cop. */
  lemma ParallelProjectionIsTranslation(t: Trig.Trig, cop: Vec4, vpn: Vec3)
    requires Trig.AtZero(t) && Trig.Arctangent(t) && Trig.Root(t)
    requires vpn.x == cop.x && vpn.y == cop.y
    ensures ParallelProjection(t, cop, vpn) == TranslationMatrix(-cop.x, -cop.y, -cop.z)
  {
    var q := VectorAngle(t, Vec3(cop.x, cop.y, 0.0), vpn);
    VectorAngleAlongZ(t, Vec3(cop.x, cop.y, 0.0), vpn);
    NoTurns(t, TranslationMatrix(-cop.x, -cop.y, -cop.z), q.x, q.y);
  }

  /** T . Rx(-qx) . Ry(-qy) is T when both angles are zero. */
  lemma NoTurns(t: Trig.Trig, tr: Mat4, qx: real, qy: real)
    requires Trig.AtZero(t) && qx == 0.0 && qy == 0.0
    ensures Product([tr, XRotationMatrix(t, -qx), YRotationMatrix(t, -qy)]) == tr
  {
    ZeroRotations(t);
    assert -qx == 0.0 && -qy == 0.0;
    ProductOfThree(tr, XRotationMatrix(t, -qx), YRotationMatrix(t, -qy));
    IdentityRight(tr);
  }

  /** The normalisation matrix: parallel projection, then rotation about z
      by the view-up angle theta, then scaling by 2 * factor over the
      window's width and height, with z squashed to 0. */
  function Normalization(t: Trig.Trig, cop: Vec4, vpn: Vec3, theta: real, factor: real,
                         width: real, height: real): Mat4
    requires width != 0.0 && height != 0.0
  {
    MatMul(MatMul(ParallelProjection(t, cop, vpn), ZRotationMatrix(t, theta)),
           ScalingMatrix(2.0 * factor / width, 2.0 * factor / height, 0.0))
  }

  /** With the normal straight above a centre of projection on z = 0, the
      normalisation starts with the translation by -cop. */
  lemma NormalizationTranslatesFirst(t: Trig.Trig, cop: Vec4, vpn: Vec3, theta: real, factor: real,
                                     width: real, height: real)
    requires Trig.AtZero(t) && Trig.Arctangent(t) && Trig.Root(t) && width != 0.0 && height != 0.0
    requires vpn.x == cop.x && vpn.y == cop.y && cop.z == 0.0
    ensures Normalization(t, cop, vpn, theta, factor, width, height)
         == MatMul(MatMul(TranslationMatrix(-cop.x, -cop.y, 0.0), ZRotationMatrix(t, theta)),
                   ScalingMatrix(2.0 * factor / width, 2.0 * factor / height, 0.0))
  {
    ParallelProjectionIsTranslation(t, cop, vpn);
    assert TranslationMatrix(-cop.x, -cop.y, -cop.z) == TranslationMatrix(-cop.x, -cop.y, 0.0);
  }

  /** With the centre of projection at the origin and no view-up angle, the
      normalisation is the bare scaling. */
  lemma NormalizationAtStart(t: Trig.Trig, cop: Vec4, vpn: Vec3, theta: real, factor: real,
                             width: real, height: real)
    requires Trig.AtZero(t) && Trig.Arctangent(t) && Trig.Root(t) && width != 0.0 && height != 0.0
    requires cop == Vec4(0.0, 0.0, 0.0, 1.0) && vpn.x == 0.0 && vpn.y == 0.0 && theta == 0.0
    ensures Normalization(t, cop, vpn, theta, factor, width, height)
         == ScalingMatrix(2.0 * factor / width, 2.0 * factor / height, 0.0)
  {
    NormalizationTranslatesFirst(t, cop, vpn, theta, factor, width, height);
    ZeroRotations(t);
    IdentityChain(TranslationMatrix(-cop.x, -cop.y, 0.0), ZRotationMatrix(t, theta),
                  ScalingMatrix(2.0 * factor / width, 2.0 * factor / height, 0.0));
  }

  lemma IdentityChain(a: Mat4, b: Mat4, c: Mat4)
    requires a == Identity && b == Identity
    ensures MatMul(MatMul(a, b), c) == c
  {
    IdentityLeft(Identity);
    IdentityLeft(c);
  }

  lemma IdentityLeft(m: Mat4)
    ensures MatMul(Identity, m) == m
  {
  }

  lemma IdentityRight(m: Mat4)
    ensures MatMul(m, Identity) == m
  {
  }

  /** Multiplying by the identity changes nothing. */
  lemma IdentityKeeps(v: Vec4)
    ensures VecMat(v, Identity) == v
  {
  }

  /** The centre moved in its plane: c . T(dx, dy, 0), which for w = 1
      adds (dx, dy) and keeps z and w. */
  function Translate(c: Vec4, dx: real, dy: real): (r: Vec4)
    ensures c.w == 1.0 ==> r == Vec4(c.x + dx, c.y + dy, c.z, 1.0)
  {
    VecMat(c, TranslationMatrix(dx, dy, 0.0))
  }

  /** A rotation by zero degrees is the identity. */
  lemma ZeroRotations(t: Trig.Trig)
    requires Trig.AtZero(t)
    ensures XRotationMatrix(t, 0.0) == Identity
    ensures YRotationMatrix(t, 0.0) == Identity
    ensures ZRotationMatrix(t, 0.0) == Identity
  {
  }

  /** Rotating about z by -a undoes rotating by a: the unrotation is the
      inverse of the view-up rotation. */
  lemma UnrotateUndoesRotate(t: Trig.Trig, a: real, p: Vec3)
    requires Trig.OnUnitCircle(t) && Trig.Symmetric(t)
    ensures Apply(ZRotationMatrix(t, -a), Apply(ZRotationMatrix(t, a), p)) == p
  {
    var q := Apply(ZRotationMatrix(t, a), p);
    ZRotationApply(t, a, p);
    ZRotationApply(t, -a, q);
    assert t.sind(a) * t.sind(a) + t.cosd(a) * t.cosd(a) == 1.0;
    PlanarInverse(t.cosd(a), t.sind(a), p.x, p.y, q.x, q.y);
  }

  /** Rotating (u, v) by (c, s) and then by (c, -s) gives (u, v) back when
      c^2 + s^2 = 1. */
  lemma PlanarInverse(c: real, s: real, u: real, v: real, a: real, b: real)
    requires s * s + c * c == 1.0
    requires a == u * c - v * s && b == u * s + v * c
    ensures a * c - b * (-s) == u && a * (-s) + b * c == v
  {
    assert a * c + b * s == u * (c * c + s * s);
    assert b * c - a * s == v * (s * s + c * c);
  }

  class Transformator {
    /** The trigonometric primitives (numpy's, in degrees). */
    const trig: Trig.Trig
    var system: string
    var xwMin: real
    var ywMin: real
    var xwMax: real
    var ywMax: real
    /** Distance of the projection plane from the centre of projection. */
    var dop: int
    var center: Vec4
    var cop: Vec4
    var mper: Mat4
    var scalingFactor: real
    var normalMatrix: Mat4
    var viewup: Vec4
    var viewupAngle: real
    var vpn: Vec3

    /** The camera's standing relations: the window spans [0, width] x
        [0, height]; the centre sits on the projection plane with w = 1;
        the normal is one unit above the centre and the centre of
        projection right below it on z = 0; the view-up angle is the one
        of the current view-up vector. */
    ghost predicate Valid()
      reads this
    {
      && Trig.Valid(trig)
      && dop > 0
      && xwMin == 0.0 && ywMin == 0.0 && xwMax > 0.0 && ywMax > 0.0
      && center.z == dop as real && center.w == 1.0
      && vpn == Vec3(center.x, center.y, center.z + 1.0)
      && cop == Vec4(center.x, center.y, 0.0, 1.0)
      && mper == PerspectiveMatrix(dop as real)
      && viewupAngle == ViewUpAngle(trig, viewup)
    }

    /** Builds the camera for a window of the given size; dop stands for
        round(width * sqrt(3) / 2), given here as a positive integer. */
    constructor(t: Trig.Trig, dopIn: int, systemIn: string := "SCN", height: int := 400, width: int := 600)
      requires Trig.Valid(t) && dopIn > 0 && height > 0 && width > 0
      ensures Valid()
      ensures trig == t && system == systemIn && dop == dopIn
      ensures xwMax == width as real && ywMax == height as real
      ensures center == Vec4(0.0, 0.0, dopIn as real, 1.0)
      ensures cop == Vec4(0.0, 0.0, 0.0, 1.0)
      ensures vpn == Vec3(0.0, 0.0, dopIn as real + 1.0)
      ensures viewup == Vec4(0.0, 1.0, 0.0, 1.0) && viewupAngle == 0.0
      ensures scalingFactor == 1.0
      ensures normalMatrix == ScalingMatrix(2.0 / xwMax, 2.0 / ywMax, 0.0)
    {
      trig := t;
      system := systemIn;
      xwMin, ywMin := 0.0, 0.0;
      xwMax, ywMax := width as real, height as real;
      dop := dopIn;
      center := Vec4(0.0, 0.0, dopIn as real, 1.0);
      cop := Vec4(0.0, 0.0, 0.0, 1.0);
      mper := PerspectiveMatrix(dopIn as real);
      scalingFactor := 1.0;
      normalMatrix := Identity;
      viewup := Vec4(0.0, 1.0, 0.0, 1.0);
      viewupAngle := 0.0;
      vpn := Vec3(0.0, 0.0, dopIn as real + 1.0);
      new;
      SetNormalizationMatrix(0.0);
      NormalizationAtStart(trig, cop, vpn, viewupAngle, scalingFactor, xwMax - xwMin, ywMax - ywMin);
      assert 2.0 * scalingFactor / (xwMax - xwMin) == 2.0 / xwMax;
      assert 2.0 * scalingFactor / (ywMax - ywMin) == 2.0 / ywMax;
    }

    /** set_normalization_matrix: turns the view-up vector by angle, takes
        its new angle, and rebuilds the normalisation matrix, whose first
        factor is the translation by -cop. */
    method SetNormalizationMatrix(angle: real := 0.0)
      requires Valid()
      modifies this`viewup, this`viewupAngle, this`normalMatrix
      ensures Valid()
      ensures angle != 0.0 ==> viewup == VecMat(old(viewup), ZRotationMatrix(trig, angle))
      ensures angle == 0.0 ==> viewup == old(viewup) && viewupAngle == old(viewupAngle)
      ensures normalMatrix == Normalization(trig, cop, vpn, viewupAngle, scalingFactor, xwMax - xwMin, ywMax - ywMin)
    {
      UpdateViewUpVector(angle);
      normalMatrix := Normalization(trig, cop, vpn, viewupAngle, scalingFactor, xwMax - xwMin, ywMax - ywMin);
    }

    /** __update_view_up_vector */
    method UpdateViewUpVector(theta: real)
      requires Valid()
      modifies this`viewup, this`viewupAngle
      ensures Valid()
      ensures theta != 0.0 ==> viewup == VecMat(old(viewup), ZRotationMatrix(trig, theta))
      ensures theta == 0.0 ==> viewup == old(viewup) && viewupAngle == old(viewupAngle)
    {
      if theta == 0.0 {
        ZeroRotations(trig);
        IdentityKeeps(viewup);
      }
      var r := ZRotationMatrix(trig, theta);
      viewup := VecMat(viewup, r);
      viewupAngle := -1.0 * (90.0 - trig.atan2d(viewup.y, viewup.x));
    }

    /** unrotate_vector: (dx, dy, dz) turned about z by minus the view-up
        angle. */
    function UnrotateVector(dx: real, dy: real, dz: real := 0.0): (r: Vec3)
      reads this`viewupAngle
      ensures var c, s := trig.cosd(-viewupAngle), trig.sind(-viewupAngle);
              r == Vec3(dx * c - dy * s, dx * s + dy * c, dz)
    {
      var v := VecMat(Vec4(dx, dy, dz, 1.0), ZRotationMatrix(trig, -viewupAngle));
      Vec3(v.x, v.y, v.z)
    }

    /** Unrotating a vector that was turned by the view-up angle gives it
        back unchanged. */
    lemma UnrotateInvertsViewUp(p: Vec3)
      requires Valid()
      ensures var q := Apply(ZRotationMatrix(trig, viewupAngle), p);
              UnrotateVector(q.x, q.y, q.z) == p
    {
      var q := Apply(ZRotationMatrix(trig, viewupAngle), p);
      ZRotationApply(trig, -viewupAngle, q);
      UnrotateUndoesRotate(trig, viewupAngle, p);
    }

    /** The scaling_factor setter: takes effect at the next
        set_normalization_matrix. */
    method SetScalingFactor(value: real)
      modifies this`scalingFactor
      ensures scalingFactor == value
    {
      scalingFactor := value;
    }

    /** update_center: moves the centre by the unrotated (dx, dy) in its own
        plane; the normal and the centre of projection follow it. */
    method UpdateCenter(dx: real, dy: real)
      requires Valid()
      modifies this`center, this`vpn, this`cop
      ensures Valid()
      ensures var u := old(UnrotateVector(dx, dy));
              center == Vec4(old(center).x + u.x, old(center).y + u.y, old(center).z, 1.0)
      ensures vpn == Vec3(center.x, center.y, center.z + 1.0)
      ensures cop == Vec4(center.x, center.y, 0.0, 1.0)
    {
      var changed := UnrotateVector(dx, dy);
      center := Translate(center, changed.x, changed.y);
      vpn := Vec3(center.x, center.y, center.z + 1.0);
      cop := Vec4(center.x, center.y, 0.0, 1.0);
    }
  }

  /** With Mper for a positive dop and d = dop, no point in front of the
      plane divides by zero, and each point goes to the first two entries
      of (x d / z, y d / z, d, 1) . N. */
  lemma PerspectiveWithMper(cs: seq<Vec3>, d: real, n: Mat4)
    requires d > 0.0
    ensures Divisible(cs, d, PerspectiveMatrix(d))
    ensures forall i :: 0 <= i < |cs| && cs[i].z >= d ==>
              Projected(cs[i], d, PerspectiveMatrix(d), n)
              == var q := VecMat(Vec4(cs[i].x * d / cs[i].z, cs[i].y * d / cs[i].z, d, 1.0), n);
                 Point2(q.x, q.y)
  {
    forall i | 0 <= i < |cs| && cs[i].z >= d
      ensures PerspectiveW(PerspectiveMatrix(d), cs[i]) != 0.0
      ensures Projected(cs[i], d, PerspectiveMatrix(d), n)
              == var q := VecMat(Vec4(cs[i].x * d / cs[i].z, cs[i].y * d / cs[i].z, d, 1.0), n);
                 Point2(q.x, q.y)
    {
      PerspectivePoint(cs[i], d);
    }
  }

  /** One point: Mper gives w = z / d, and dividing by it multiplies by d / z. */
  lemma PerspectivePoint(p: Vec3, d: real)
    requires d > 0.0 && p.z >= d
    ensures PerspectiveW(PerspectiveMatrix(d), p) == p.z / d
    ensures var h := MatVec(PerspectiveMatrix(d), Homog(p));
            h.w != 0.0 && h.x / h.w == p.x * d / p.z && h.y / h.w == p.y * d / p.z
  {
    var h := MatVec(PerspectiveMatrix(d), Homog(p));
    assert h.w == p.z / d;
    DivByRatio(p.x, p.z, d);
    DivByRatio(p.y, p.z, d);
  }

  /** x / (z / d) == x * d / z for non-zero z and d. */
  lemma DivByRatio(x: real, z: real, d: real)
    requires z > 0.0 && d > 0.0
    ensures z / d != 0.0 && x / (z / d) == x * d / z
  {
    assert (z / d) * d == z;
    assert (x * d / z) * (z / d) == x;
  }
}
