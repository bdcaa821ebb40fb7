/** Rotations as quaternions over the reals: the Hamilton product behind
    `off @ base` (GTASceneSync.py:131) and the x/z sign flip that converts
    a rotation into the game's convention (GTASceneSync.py:132). */
module Quaternion {

  datatype Quat = Quat(w: real, x: real, y: real, z: real)

  const Identity := Quat(1.0, 0.0, 0.0, 0.0)

  /** The Hamilton product `a @ b`. */
  function Mul(a: Quat, b: Quat): Quat
  {
    Quat(a.w * b.w - a.x * b.x - a.y * b.y - a.z * b.z,
         a.w * b.x + a.x * b.w + a.y * b.z - a.z * b.y,
         a.w * b.y - a.x * b.z + a.y * b.w + a.z * b.x,
         a.w * b.z + a.x * b.y - a.y * b.x + a.z * b.w)
  }

  function NormSq(q: Quat): real
  {
    q.w * q.w + q.x * q.x + q.y * q.y + q.z * q.z
  }

  /** The unit quaternion j, a half turn about the y axis, and its inverse. */
  const J := Quat(0.0, 0.0, 1.0, 0.0)
  const JInverse := Quat(0.0, 0.0, -1.0, 0.0)

  /** The rotation written to the placement file: x and z negated, y and w kept. */
  function ToGame(q: Quat): Quat
  {
    Quat(q.w, -q.x, q.y, -q.z)
  }

  /** The conversion is conjugation by j: the change of frame by a half
      turn about the y axis. */
  lemma ToGameIsConjugation(q: Quat)
    ensures ToGame(q) == Mul(Mul(J, q), JInverse)
  {
  }

  /** Converting twice gives the rotation back. */
  lemma ToGameInvolution(q: Quat)
    ensures ToGame(ToGame(q)) == q
  {
  }

  /** The conversion keeps the length, so a unit rotation stays a unit rotation. */
  lemma ToGameKeepsNorm(q: Quat)
    ensures NormSq(ToGame(q)) == NormSq(q)
  {
  }

  /** The conversion is conjugation by the unit quaternion j, so it respects
      the product: converting `off @ base` equals composing the converted
      offset with the converted rotation. */
  lemma ToGameOfProduct(a: Quat, b: Quat)
    ensures ToGame(Mul(a, b)) == Mul(ToGame(a), ToGame(b))
  {
    var p := Mul(a, b);
    ProductComponents(a, b);
    assert Mul(ToGame(a), ToGame(b)) == Quat(p.w, -p.x, p.y, -p.z);
  }

  lemma ProductComponents(a: Quat, b: Quat)
    ensures Mul(ToGame(a), ToGame(b)).w == Mul(a, b).w
    ensures Mul(ToGame(a), ToGame(b)).x == -Mul(a, b).x
    ensures Mul(ToGame(a), ToGame(b)).y == Mul(a, b).y
    ensures Mul(ToGame(a), ToGame(b)).z == -Mul(a, b).z
  {
    ProductW(a, b);
    ProductX(a, b);
    ProductY(a, b);
    ProductZ(a, b);
  }

  lemma ProductW(a: Quat, b: Quat)
    ensures Mul(ToGame(a), ToGame(b)).w == Mul(a, b).w
  {
    FlippedProductW(a.w, a.x, a.y, a.z, b.w, b.x, b.y, b.z);
  }

  lemma ProductX(a: Quat, b: Quat)
    ensures Mul(ToGame(a), ToGame(b)).x == -Mul(a, b).x
  {
    FlippedProductX(a.w, a.x, a.y, a.z, b.w, b.x, b.y, b.z);
  }

  lemma ProductY(a: Quat, b: Quat)
    ensures Mul(ToGame(a), ToGame(b)).y == Mul(a, b).y
  {
    FlippedProductY(a.w, a.x, a.y, a.z, b.w, b.x, b.y, b.z);
  }

  lemma ProductZ(a: Quat, b: Quat)
    ensures Mul(ToGame(a), ToGame(b)).z == -Mul(a, b).z
  {
    FlippedProductZ(a.w, a.x, a.y, a.z, b.w, b.x, b.y, b.z);
  }

  // One lemma per component of the product of two flipped quaternions.

  lemma FlippedProductW(aw: real, ax: real, ay: real, az: real, bw: real, bx: real, b_y: real, bz: real)
    ensures aw * bw - -ax * -bx - ay * b_y - -az * -bz == aw * bw - ax * bx - ay * b_y - az * bz
  {
  }

  lemma FlippedProductX(aw: real, ax: real, ay: real, az: real, bw: real, bx: real, b_y: real, bz: real)
    ensures aw * -bx + -ax * bw + ay * -bz - -az * b_y == -(aw * bx + ax * bw + ay * bz - az * b_y)
  {
  }

  lemma FlippedProductY(aw: real, ax: real, ay: real, az: real, bw: real, bx: real, b_y: real, bz: real)
    ensures aw * b_y - -ax * -bz + ay * bw + -az * -bx == aw * b_y - ax * bz + ay * bw + az * bx
  {
  }

  lemma FlippedProductZ(aw: real, ax: real, ay: real, az: real, bw: real, bx: real, b_y: real, bz: real)
    ensures aw * -bz + -ax * b_y - ay * -bx + -az * bw == -(aw * bz + ax * b_y - ay * bx + az * bw)
  {
  }
}
