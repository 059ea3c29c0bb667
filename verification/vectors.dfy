/** Real-valued stand-ins for the PVRTVec3 / PVRTVec4 / PVRTMat4 types the particle system
    works with, and the primitives whose definitions live outside this model (sine, cosine,
    vector length, normalisation and the matrix-vector product), which are handed to every
    operation as an explicit record of functions. */
module Vectors {

  datatype Vec3 = Vec3(x: real, y: real, z: real)

  datatype Vec4 = Vec4(x: real, y: real, z: real, w: real)

  /** A 4x4 transformation; its entries are only ever consumed by `Intrinsics.transform`. */
  datatype Mat4 = Mat4(entries: seq<real>)

  function Add(a: Vec3, b: Vec3): Vec3
  {
    Vec3(a.x + b.x, a.y + b.y, a.z + b.z)
  }

  function Sub(a: Vec3, b: Vec3): Vec3
  {
    Vec3(a.x - b.x, a.y - b.y, a.z - b.z)
  }

  function Scale(v: Vec3, k: real): Vec3
  {
    Vec3(v.x * k, v.y * k, v.z * k)
  }

  /** Squared Euclidean length, the `lenSqr()` of a PVRTVec3. */
  function LenSqr(v: Vec3): real
  {
    v.x * v.x + v.y * v.y + v.z * v.z
  }

  /** The xyz part of a homogeneous vector, as when a PVRTVec4 is assigned to a PVRTVec3. */
  function Xyz(v: Vec4): Vec3
  {
    Vec3(v.x, v.y, v.z)
  }

  /** Primitives left uninterpreted: `sin`/`cos` of the C library, `length()` and
      `normalized()` of a PVRTVec3, and the PVRTMat4 * PVRTVec4 product. */
  datatype Intrinsics = Intrinsics(
    sin: real -> real,
    cos: real -> real,
    length: Vec3 -> real,
    normalized: Vec3 -> Vec3,
    transform: (Mat4, Vec4) -> Vec4)
}
