/** The records the CPU particle system manipulates: particles, the spawn emitter, the
    collision spheres and the (opaque) mesh a particle is drawn with. */
module Particles {
  import opened Vectors

  /** A `Mesh*`: only its identity matters here; it is stored and copied, never followed. */
  datatype MeshRef = NoMesh | MeshAt(address: nat)

  /** The spawn volume: a disc of `radius` swept `height` along the local up axis, placed in
      the world by `transformation`. */
  datatype Emitter = Emitter(transformation: Mat4, height: real, radius: real)

  datatype Sphere = Sphere(center: Vec3, radius: real)

  datatype Particle = Particle(
    position: Vec3,
    velocity: Vec3,
    radius: real,
    color: Vec4,
    lifespan: real,
    mesh: MeshRef)

  /** Every colour channel lies in [0, 1] and the colour is opaque. */
  predicate FreshColor(c: Vec4)
  {
    && 0.0 <= c.x <= 1.0
    && 0.0 <= c.y <= 1.0
    && 0.0 <= c.z <= 1.0
    && c.w == 1.0
  }
}
