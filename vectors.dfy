/** Three-component vectors over the reals, standing in for Panda3D's Vec3/Point3.
    Sums and cross products are exact here; normalisation is not modelled. */
module Vectors {

  datatype Vec3 = Vec3(x: real, y: real, z: real)

  const Zero: Vec3 := Vec3(0.0, 0.0, 0.0)

  function Add(a: Vec3, b: Vec3): Vec3
  {
    Vec3(a.x + b.x, a.y + b.y, a.z + b.z)
  }

  function Sub(a: Vec3, b: Vec3): Vec3
  {
    Vec3(a.x - b.x, a.y - b.y, a.z - b.z)
  }

  function Neg(a: Vec3): Vec3
  {
    Vec3(-a.x, -a.y, -a.z)
  }

  /** The right-handed cross product (Panda3D's `**` on vectors). */
  function Cross(a: Vec3, b: Vec3): Vec3
  {
    Vec3(a.y * b.z - a.z * b.y, a.z * b.x - a.x * b.z, a.x * b.y - a.y * b.x)
  }

  /** Swapping the operands of a cross product negates it. */
  lemma CrossAntiCommutes(a: Vec3, b: Vec3)
    ensures Cross(b, a) == Neg(Cross(a, b))
  {
  }

  /** Negating both operands leaves a cross product unchanged. */
  lemma CrossOfNegations(a: Vec3, b: Vec3)
    ensures Cross(Neg(a), Neg(b)) == Cross(a, b)
  {
  }
}
