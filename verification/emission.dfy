/** `EmitParticle`: overwrite a particle with a freshly spawned one, drawn from the emitter's
    volume with random size and colour (ParticleSystemCPU.cpp:20-37). */
module Emission {
  import opened Vectors
  import opened Random
  import opened Particles

  /** `rand()` calls one emission makes: angle, height, disc radius, size and three channels. */
  const DrawsPerEmission: nat := 7

  /** The world position spawned from angle draw `a`, height draw `u` and disc draw `d`: the
      local point (r sin a, h, r cos a, 1) with h = u * height and r = d * radius, put through
      the emitter's transformation. The sine and cosine are taken of the raw draw in [0, 1],
      not of an angle scaled to a full turn. */
  function SpawnPosition(emitter: Emitter, a: real, u: real, d: real, ops: Intrinsics): Vec3
  {
    var h := u * emitter.height;
    var r := d * emitter.radius;
    Xyz(ops.transform(emitter.transformation, Vec4(r * ops.sin(a), h, r * ops.cos(a), 1.0)))
  }

  /** `p` was spawned by `emitter` from angle draw `a`, height draw `u` and disc draw `d`:
      it sits at the transformed local point, and flies away from the world origin at
      4a times its position. */
  ghost predicate SpawnedFrom(p: Particle, emitter: Emitter, a: real, u: real, d: real, ops: Intrinsics)
  {
    && p.position == SpawnPosition(emitter, a, u, d, ops)
    && p.velocity == Scale(Scale(p.position, a), 4.0)
  }

  /** The seed is accepted but never read. Lifespan and mesh are left as they were. */
  function EmitParticle(p: Particle, emitter: Emitter, seed: real, rng: Source, ops: Intrinsics): (r: Drawn<Particle>)
    ensures r.rest == Skip(rng, DrawsPerEmission)
    ensures r.value.lifespan == p.lifespan && r.value.mesh == p.mesh
    ensures 0.3 <= r.value.radius <= 0.9
    ensures FreshColor(r.value.color)
    ensures r.value.velocity == Scale(Scale(r.value.position, RandF(rng).value), 4.0)
  {
    var angle := RandF(rng);
    var height := RandF(angle.rest);
    var disc := RandF(height.rest);
    var position := SpawnPosition(emitter, angle.value, height.value, disc.value, ops);
    var velocity := Scale(Scale(position, angle.value), 4.0);
    var size := RandF(disc.rest);
    var red := RandF(size.rest);
    var green := RandF(red.rest);
    var blue := RandF(green.rest);
    Drawn(p.(position := position,
             velocity := velocity,
             radius := 0.3 + size.value * 0.6,
             color := Vec4(red.value, green.value, blue.value, 1.0)),
          blue.rest)
  }

  /** Every emitted particle comes out of the emitter's volume: the first three draws, each
      in [0, 1], place it and give it its outward velocity. */
  lemma EmittedFromVolume(p: Particle, emitter: Emitter, seed: real, rng: Source, ops: Intrinsics)
    ensures var a, u, d := RandF(rng).value, RandF(Skip(rng, 1)).value, RandF(Skip(rng, 2)).value;
      && 0.0 <= a <= 1.0 && 0.0 <= u <= 1.0 && 0.0 <= d <= 1.0
      && SpawnedFrom(EmitParticle(p, emitter, seed, rng, ops).value, emitter, a, u, d, ops)
  {
  }

  /** The seed has no influence on the emitted particle. */
  lemma SeedIsIgnored(p: Particle, emitter: Emitter, s1: real, s2: real, rng: Source, ops: Intrinsics)
    ensures EmitParticle(p, emitter, s1, rng, ops) == EmitParticle(p, emitter, s2, rng, ops)
  {
  }
}
