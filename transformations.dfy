/** The transformation requests a user can queue for an object: a closed sum
    of translation, scaling and rotation, each storing exactly what it was
    built with. */
module Transformations {
  import opened LinAlg
  import opened Wrappers

  /** The seven rotation kinds, valued 0..6 in declaration order. */
  datatype Rotation3DType = X | Y | Z | CenterX | CenterY | CenterZ | AnyAxis

  /** The enum member's value. */
  function Value(t: Rotation3DType): (v: nat)
    ensures v <= 6
  {
    match t
    case X => 0
    case Y => 1
    case Z => 2
    case CenterX => 3
    case CenterY => 4
    case CenterZ => 5
    case AnyAxis => 6
  }

  /** The text str() gives for a member; rotation requests carry this text,
      and rotation dispatch compares against it. */
  function Name(t: Rotation3DType): string {
    match t
    case X => "Rotation3DType.X"
    case Y => "Rotation3DType.Y"
    case Z => "Rotation3DType.Z"
    case CenterX => "Rotation3DType.center_X"
    case CenterY => "Rotation3DType.center_Y"
    case CenterZ => "Rotation3DType.center_Z"
    case AnyAxis => "Rotation3DType.any_axis"
  }

  /** The member whose str() form is s, if any: the if/elif chain of the
      rotation dispatch. */
  function FromName(s: string): (r: Option<Rotation3DType>)
    ensures r.Some? ==> Name(r.value) == s
  {
    if s == Name(AnyAxis) then Some(AnyAxis)
    else if s == Name(X) then Some(X)
    else if s == Name(Y) then Some(Y)
    else if s == Name(Z) then Some(Z)
    else if s == Name(CenterX) then Some(CenterX)
    else if s == Name(CenterY) then Some(CenterY)
    else if s == Name(CenterZ) then Some(CenterZ)
    else None
  }

  /** The members in declaration order. */
  const Members: seq<Rotation3DType> := [X, Y, Z, CenterX, CenterY, CenterZ, AnyAxis]

  /** There are exactly seven members, valued 0..6 in declaration order, and
      distinct members have distinct values. */
  lemma ValuesAreExactlyZeroToSix()
    ensures |Members| == 7 && forall t :: t in Members
    ensures forall i :: 0 <= i < 7 ==> Value(Members[i]) == i
    ensures forall a, b :: Value(a) == Value(b) ==> a == b
  {
    forall t ensures t in Members {
      assert Members[Value(t)] == t;
    }
  }

  /** Dispatch on the str() form recognises every member, and only them. */
  lemma {:induction false} FromNameOfName(t: Rotation3DType)
    ensures FromName(Name(t)) == Some(t)
  {
    match t
    case X =>
    case Y =>
    case Z =>
    case CenterX =>
    case CenterY =>
    case CenterZ =>
    case AnyAxis =>
  }

  /** The default rotation kind of Objeto3D.rotation ("RotationType.Z", a
      name from an older enum) is not recognised. */
  lemma DefaultRotationTypeUnknown()
    ensures FromName("RotationType.Z") == None
  {
    assert "RotationType.Z"[0..8] == "Rotation";
    assert "RotationType.Z"[8] == 'T';
    forall t: Rotation3DType ensures Name(t) != "RotationType.Z" {
      assert Name(t)[8] == '3';
    }
  }

  /** A transformation request.  Translation's dz defaults to 0, Scaling's sz
      to 1, Rotation's two axis points to the origin; rotationType is kept as
      the text it was given. */
  datatype Transformation =
    | Translation(dx: real, dy: real, dz: real := 0.0)
    | Scaling(sx: real, sy: real, sz: real := 1.0)
    | Rotation(rotationType: string, angle: real,
               p1: Vec3 := Vec3(0.0, 0.0, 0.0), p2: Vec3 := Vec3(0.0, 0.0, 0.0))
}
