/** Three-component vectors over the reals (TSL vec3 with exact arithmetic). */
module Vectors {

  datatype Vec3 = Vec3(x: real, y: real, z: real)

  const Zero := Vec3(0.0, 0.0, 0.0)

  function Add(a: Vec3, b: Vec3): Vec3
  {
    Vec3(a.x + b.x, a.y + b.y, a.z + b.z)
  }

  function Sub(a: Vec3, b: Vec3): Vec3
  {
    Vec3(a.x - b.x, a.y - b.y, a.z - b.z)
  }

  function Scale(a: Vec3, c: real): Vec3
  {
    Vec3(a.x * c, a.y * c, a.z * c)
  }

  /** Every coordinate of v lies in [lo, hi). */
  predicate InBox(v: Vec3, lo: real, hi: real)
  {
    lo <= v.x < hi && lo <= v.y < hi && lo <= v.z < hi
  }
}
