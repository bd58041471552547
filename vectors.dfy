/** Three-component real vectors: bond vectors, forces and force-buffer rows. */
module Vectors {

  datatype Vec3 = Vec3(x: real, y: real, z: real)

  const Zero: Vec3 := Vec3(0.0, 0.0, 0.0)

  function Add(u: Vec3, v: Vec3): Vec3 {
    Vec3(u.x + v.x, u.y + v.y, u.z + v.z)
  }

  function Sub(u: Vec3, v: Vec3): Vec3 {
    Vec3(u.x - v.x, u.y - v.y, u.z - v.z)
  }

  function Neg(u: Vec3): Vec3 {
    Vec3(-u.x, -u.y, -u.z)
  }

  function Scale(a: real, u: Vec3): Vec3 {
    Vec3(a * u.x, a * u.y, a * u.z)
  }

  function Dot(u: Vec3, v: Vec3): real {
    u.x * v.x + u.y * v.y + u.z * v.z
  }

  /** Squared length, the denominator of the inverse squared bond lengths. */
  function NormSq(u: Vec3): real {
    Dot(u, u)
  }

  /** The linear combination p*u + q*v + r*w, the shape of every force vector. */
  function Comb(p: real, u: Vec3, q: real, v: Vec3, r: real, w: Vec3): Vec3 {
    Add(Add(Scale(p, u), Scale(q, v)), Scale(r, w))
  }

  lemma AddAssoc(u: Vec3, v: Vec3, w: Vec3)
    ensures Add(Add(u, v), w) == Add(u, Add(v, w))
  {
  }
}
