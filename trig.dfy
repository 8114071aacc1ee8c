/** The trigonometric primitives the editor takes from numpy.  Dafny has no
    real cosine, so they are parameters of the model: every operation that
    rotates receives a Trig record, and the facts the proofs rely on are
    stated once, by the predicate Valid, as a precondition on that record.

    All four work in DEGREES: cosd(a) stands for np.cos(np.radians(a)) and
    atan2d(y, x) for np.degrees(np.arctan2(y, x)), which is how every caller
    in the editor uses them. */
module Trig {

  datatype Trig = Trig(cosd: real -> real,
                       sind: real -> real,
                       atan2d: (real, real) -> real,
                       sqrt: real -> real)

  /** cos 0 = 1 and sin 0 = 0. */
  ghost predicate AtZero(t: Trig) {
    t.cosd(0.0) == 1.0 && t.sind(0.0) == 0.0
  }

  /** sin^2 a + cos^2 a = 1 for every angle. */
  ghost predicate OnUnitCircle(t: Trig) {
    forall a :: t.sind(a) * t.sind(a) + t.cosd(a) * t.cosd(a) == 1.0
  }

  /** Cosine is even and sine is odd. */
  ghost predicate Symmetric(t: Trig) {
    && (forall a :: t.cosd(-a) == t.cosd(a))
    && (forall a :: t.sind(-a) == -t.sind(a))
  }

  /** The arctangent of (0, r) for r >= 0 is 0, and that of (1, 0) is 90
      degrees. */
  ghost predicate Arctangent(t: Trig) {
    && (forall r :: r >= 0.0 ==> t.atan2d(0.0, r) == 0.0)
    && t.atan2d(1.0, 0.0) == 90.0
  }

  /** Square roots of non-negative numbers are non-negative. */
  ghost predicate Root(t: Trig) {
    forall r :: r >= 0.0 ==> t.sqrt(r) >= 0.0
  }

  /** The facts about cosine, sine, arctangent and square root that the model uses. */
  ghost predicate Valid(t: Trig) {
    AtZero(t) && OnUnitCircle(t) && Symmetric(t) && Arctangent(t) && Root(t)
  }
}
