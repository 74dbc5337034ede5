/**
 * The per-face frame of the cube-sphere: a face normal `localUp` and two
 * in-plane axes derived from it. Every component is -1, 0 or 1, so the
 * frame is modelled exactly over `int`.
 */
module FaceAxes {
  import opened TileKeys

  datatype Vec3 = Vec3(x: int, y: int, z: int)

  function Dot(a: Vec3, b: Vec3): int {
    var ax, ay, az, bx, by_, bz := a.x, a.y, a.z, b.x, b.y, b.z;
    ax * bx + ay * by_ + az * bz
  }

  /** Unity's `Vector3.Cross`. */
  function Cross(a: Vec3, b: Vec3): Vec3 {
    var ax, ay, az, bx, by_, bz := a.x, a.y, a.z, b.x, b.y, b.z;
    Vec3(ay * bz - az * by_, az * bx - ax * bz, ax * by_ - ay * bx)
  }

  /** Exactly one non-zero component, and that component is 1 or -1. */
  predicate IsUnitAxis(v: Vec3) {
    || (v.y == 0 && v.z == 0 && (v.x == 1 || v.x == -1))
    || (v.x == 0 && v.z == 0 && (v.y == 1 || v.y == -1))
    || (v.x == 0 && v.y == 0 && (v.z == 1 || v.z == -1))
  }

  /** Canonical face normals, in face-index order +Y, -Y, -X, +X, +Z, -Z. */
  const FaceUp: seq<Vec3> := [Vec3(0, 1, 0), Vec3(0, -1, 0), Vec3(-1, 0, 0), Vec3(1, 0, 0), Vec3(0, 0, 1), Vec3(0, 0, -1)]

  /** `Mathf.Clamp(faceIndex, 0, 5)` for a byte argument. */
  function ClampFace(faceIndex: byte): (i: nat)
    ensures i < 6
    ensures faceIndex < 6 ==> i == faceIndex as nat
    ensures faceIndex >= 6 ==> i == 5
  {
    if faceIndex < 5 then faceIndex as nat else 5
  }

  datatype Frame = Frame(localUp: Vec3, axisA: Vec3, axisB: Vec3)

  /** The in-plane axes of a face normal: a cyclic permutation and a cross product. */
  function AxesOf(up: Vec3): (f: Frame)
    ensures f.localUp == up
  {
    var a := Vec3(up.y, up.z, up.x);
    Frame(up, a, Cross(up, a))
  }

  /** A right-handed orthonormal frame of unit axis vectors. */
  predicate IsAxisFrame(f: Frame) {
    && IsUnitAxis(f.localUp) && IsUnitAxis(f.axisA) && IsUnitAxis(f.axisB)
    && Dot(f.localUp, f.axisA) == 0 && Dot(f.localUp, f.axisB) == 0 && Dot(f.axisA, f.axisB) == 0
    && Cross(f.axisA, f.axisB) == f.localUp
  }

  /** The derivation yields an orthonormal right-handed frame for every unit axis normal. */
  lemma AxesOfUnitAxis(up: Vec3)
    requires IsUnitAxis(up)
    ensures IsAxisFrame(AxesOf(up))
  {
    // One case per unit axis vector; each is plain arithmetic on constants.
    if up == Vec3(1, 0, 0) {
    } else if up == Vec3(-1, 0, 0) {
    } else if up == Vec3(0, 1, 0) {
    } else if up == Vec3(0, -1, 0) {
    } else if up == Vec3(0, 0, 1) {
    } else {
      assert up == Vec3(0, 0, -1);
    }
  }

  /** `GetAxes`: the frame of face `clamp(faceIndex, 0, 5)`. */
  function GetAxes(faceIndex: byte): (f: Frame)
    ensures f.localUp == FaceUp[ClampFace(faceIndex)]
    ensures IsAxisFrame(f)
  {
    var up := FaceUp[ClampFace(faceIndex)];
    AxesOfUnitAxis(up);
    AxesOf(up)
  }

  /** The six normals are distinct and come in opposite pairs (+Y/-Y, -X/+X, +Z/-Z). */
  lemma FaceUpPairs()
    ensures forall i, j :: 0 <= i < j < 6 ==> FaceUp[i] != FaceUp[j]
    ensures forall k :: 0 <= k < 3 ==> Dot(FaceUp[2 * k], FaceUp[2 * k + 1]) == -1
  {
  }

  /** Any face index of 6 or more behaves as face 5. */
  lemma GetAxesClamps(faceIndex: byte)
    requires faceIndex >= 6
    ensures GetAxes(faceIndex) == GetAxes(5)
  {
  }
}
