/** `ParticleSystemCPU`: a fixed-length array of particles advanced once per frame, plus the
    configuration setters that replace the emitter, the mesh, the collision spheres and the
    particle count (ParticleSystemCPU.cpp:58-165). */
module ParticleSystem {
  import opened Vectors
  import opened Random
  import opened Particles
  import opened Emission
  import opened Physics

  /** The members of a ParticleSystemCPU: `squaredRadii` is the cache kept beside `spheres`. */
  datatype System = System(
    particles: seq<Particle>,
    emitter: Emitter,
    spheres: seq<Sphere>,
    squaredRadii: seq<real>,
    mesh: MeshRef)

  /** The outcome of an operation that reports success. */
  datatype Applied = Applied(ok: bool, system: System)

  /** The outcome of an operation that reports success and consumes random draws. */
  datatype Outcome = Outcome(ok: bool, system: System, rest: Source)

  /** The squared-radius cache matches the sphere list entry for entry. */
  predicate Lockstep(sys: System)
  {
    && |sys.squaredRadii| == |sys.spheres|
    && forall i :: 0 <= i < |sys.spheres| ==> sys.squaredRadii[i] == sys.spheres[i].radius * sys.spheres[i].radius
  }

  /** `rand()` calls made when a particle is respawned: the emission plus its new lifespan. */
  const DrawsPerRespawn: nat := DrawsPerEmission + 1

  /** Whether a particle's lifespan runs out during a step of length `step`. */
  predicate Expired(p: Particle, step: real)
  {
    p.lifespan - step < 0.0
  }

  /** One iteration of the update loop: age the particle; a particle whose lifespan went
      negative is re-emitted and given a new lifespan, skipping all motion; any other is
      integrated, resolved against the spheres and then against the ground. */
  function StepParticle(p: Particle, step: real, emitter: Emitter, spheres: seq<Sphere>,
                        squaredRadii: seq<real>, rng: Source, ops: Intrinsics): (r: Drawn<Particle>)
    requires |spheres| <= |squaredRadii|
    ensures r.rest == Skip(rng, if Expired(p, step) then DrawsPerRespawn else 0)
    ensures r.value.mesh == p.mesh
    ensures Expired(p, step) ==>
      && 12.0 <= r.value.lifespan <= 31.0
      && 0.3 <= r.value.radius <= 0.9
      && FreshColor(r.value.color)
    ensures !Expired(p, step) ==>
      && r.value.lifespan == p.lifespan - step
      && r.value.radius == p.radius
      && r.value.color == p.color
      && r.value.position.y >= r.value.radius
  {
    var aged := p.(lifespan := p.lifespan - step);
    if aged.lifespan < 0.0 then
      var emitted := EmitParticle(aged, emitter, aged.lifespan, rng, ops);
      var life := RandF(emitted.rest);
      Drawn(emitted.value.(lifespan := life.value * 19.0 + 12.0), life.rest)
    else
      Drawn(GroundClamp(CollideSpheres(Integrate(aged, step), spheres, squaredRadii, ops)), rng)
  }

  /** A respawned particle comes straight out of the emitter, flying away from the origin at
      4 times the first draw times its position: it is neither integrated, nor collided,
      nor clamped to the ground in its birth step. */
  lemma RespawnSkipsMotion(p: Particle, step: real, emitter: Emitter, spheres: seq<Sphere>,
                           squaredRadii: seq<real>, rng: Source, ops: Intrinsics)
    requires |spheres| <= |squaredRadii|
    requires Expired(p, step)
    ensures var r := StepParticle(p, step, emitter, spheres, squaredRadii, rng, ops).value;
      && r.position == SpawnPosition(emitter, RandF(rng).value, RandF(Skip(rng, 1)).value, RandF(Skip(rng, 2)).value, ops)
      && r.velocity == Scale(Scale(r.position, RandF(rng).value), 4.0)
      && r.lifespan == RandF(Skip(rng, DrawsPerEmission)).value * 19.0 + 12.0
  {
  }

  /** A surviving particle ends the step where integration, then the first penetrated
      sphere, then the ground put it; when it penetrates no sphere, only the ground acts. */
  lemma SurvivorMotion(p: Particle, step: real, emitter: Emitter, spheres: seq<Sphere>,
                       squaredRadii: seq<real>, rng: Source, ops: Intrinsics)
    requires |spheres| <= |squaredRadii|
    requires !Expired(p, step)
    requires forall j :: 0 <= j < |spheres| ==>
      !Penetrates(Add(Scale(p.velocity, step), p.position), spheres[j], squaredRadii[j])
    ensures var r := StepParticle(p, step, emitter, spheres, squaredRadii, rng, ops).value;
      && r.position.x == p.position.x + p.velocity.x * step
      && r.position.z == p.position.z + p.velocity.z * step
      && r.position.y == (if p.position.y + p.velocity.y * step < p.radius then p.radius
                          else p.position.y + p.velocity.y * step)
  {
  }

  /** The `rand()` calls an update of `ps` makes: `DrawsPerRespawn` for every particle that
      expires during the step, none for the others. */
  function RespawnDraws(ps: seq<Particle>, step: real): nat
  {
    if |ps| == 0 then 0
    else (if Expired(ps[0], step) then DrawsPerRespawn else 0) + RespawnDraws(ps[1..], step)
  }

  /** The update loop over `ps`, in array order, threading the generator through. */
  function StepAll(ps: seq<Particle>, step: real, emitter: Emitter, spheres: seq<Sphere>,
                   squaredRadii: seq<real>, rng: Source, ops: Intrinsics): (r: Drawn<seq<Particle>>)
    requires |spheres| <= |squaredRadii|
    ensures |r.value| == |ps|
    ensures r.rest == Skip(rng, RespawnDraws(ps, step))
    decreases |ps|
  {
    if |ps| == 0 then Drawn([], rng)
    else
      var head := StepParticle(ps[0], step, emitter, spheres, squaredRadii, rng, ops);
      var tail := StepAll(ps[1..], step, emitter, spheres, squaredRadii, head.rest, ops);
      Drawn([head.value] + tail.value, tail.rest)
  }

  /** Particle i's new state depends only on its own old state, the step, the emitter, the
      spheres and the draws left after the respawns of the particles before it. */
  lemma {:induction false} StepAllAt(ps: seq<Particle>, step: real, emitter: Emitter, spheres: seq<Sphere>,
                                     squaredRadii: seq<real>, rng: Source, ops: Intrinsics, i: nat)
    requires |spheres| <= |squaredRadii|
    requires i < |ps|
    ensures StepAll(ps, step, emitter, spheres, squaredRadii, rng, ops).value[i]
         == StepParticle(ps[i], step, emitter, spheres, squaredRadii,
                         Skip(rng, RespawnDraws(ps[..i], step)), ops).value
    decreases i
  {
    if i == 0 {
      assert ps[..0] == [];
    } else {
      var head := StepParticle(ps[0], step, emitter, spheres, squaredRadii, rng, ops);
      var tail := StepAll(ps[1..], step, emitter, spheres, squaredRadii, head.rest, ops);
      assert StepAll(ps, step, emitter, spheres, squaredRadii, rng, ops).value[i] == tail.value[i - 1];
      StepAllAt(ps[1..], step, emitter, spheres, squaredRadii, head.rest, ops, i - 1);
      assert ps[1..][i - 1] == ps[i];
      var first := if Expired(ps[0], step) then DrawsPerRespawn else 0;
      var before := RespawnDraws(ps[1..][..i - 1], step);
      assert ps[..i][1..] == ps[1..][..i - 1];
      assert RespawnDraws(ps[..i], step) == first + before;
      assert head.rest == Skip(rng, first);
      SkipSkip(rng, first, before);
      assert Skip(head.rest, before) == Skip(rng, RespawnDraws(ps[..i], step));
    }
  }

  /** `Update(step)`: advance every particle once; always reports success. */
  function Update(sys: System, step: real, rng: Source, ops: Intrinsics): (r: Outcome)
    requires |sys.spheres| <= |sys.squaredRadii|
    ensures r.ok
    ensures |r.system.particles| == |sys.particles|
    ensures r.system == sys.(particles := r.system.particles)
    ensures r.rest == Skip(rng, RespawnDraws(sys.particles, step))
  {
    var stepped := StepAll(sys.particles, step, sys.emitter, sys.spheres, sys.squaredRadii, rng, ops);
    Outcome(true, sys.(particles := stepped.value), stepped.rest)
  }

  /** After an update every surviving particle is above the ground, with its lifespan
      reduced by the step; every expired one has been re-emitted with a lifespan in [12, 31]
      and keeps its mesh. */
  lemma UpdateParticle(sys: System, step: real, rng: Source, ops: Intrinsics, i: nat)
    requires |sys.spheres| <= |sys.squaredRadii|
    requires i < |sys.particles|
    ensures var p, q := sys.particles[i], Update(sys, step, rng, ops).system.particles[i];
      && q == StepParticle(p, step, sys.emitter, sys.spheres, sys.squaredRadii,
                           Skip(rng, RespawnDraws(sys.particles[..i], step)), ops).value
      && q.mesh == p.mesh
      && (!Expired(p, step) ==> q.position.y >= q.radius && q.lifespan == p.lifespan - step)
      && (Expired(p, step) ==> 12.0 <= q.lifespan <= 31.0 && 0.3 <= q.radius <= 0.9)
  {
    StepAllAt(sys.particles, step, sys.emitter, sys.spheres, sys.squaredRadii, rng, ops, i);
  }

  /** `SetEmitter`: replace the emitter and nothing else. */
  function SetEmitter(sys: System, emitter: Emitter): (r: Applied)
    ensures r.ok && r.system.emitter == emitter
    ensures r.system.particles == sys.particles && r.system.spheres == sys.spheres
    ensures r.system.squaredRadii == sys.squaredRadii && r.system.mesh == sys.mesh
  {
    Applied(true, sys.(emitter := emitter))
  }

  /** `SetParticleMesh`: remember the mesh for particles created later; existing particles
      keep the mesh they had. */
  function SetParticleMesh(sys: System, mesh: MeshRef): (r: Applied)
    ensures r.ok && r.system.mesh == mesh
    ensures r.system.particles == sys.particles && r.system.emitter == sys.emitter
    ensures r.system.spheres == sys.spheres && r.system.squaredRadii == sys.squaredRadii
  {
    Applied(true, sys.(mesh := mesh))
  }

  /** The squared radii of `spheres`, appended one by one in order. */
  function SquaredRadii(spheres: seq<Sphere>): (sq: seq<real>)
    ensures |sq| == |spheres|
    ensures forall i :: 0 <= i < |spheres| ==> sq[i] == spheres[i].radius * spheres[i].radius
  {
    if |spheres| == 0 then []
    else
      var last := spheres[|spheres| - 1];
      SquaredRadii(spheres[..|spheres| - 1]) + [last.radius * last.radius]
  }

  /** `SetCollisionSpheres(pSpheres, n)`: rebuild both the sphere list and the cache from the
      first `n` spheres given, leaving particles, emitter and mesh alone. */
  function SetCollisionSpheres(sys: System, spheres: seq<Sphere>, n: nat): (r: Applied)
    requires n <= |spheres|
    ensures r.ok
    ensures r.system.spheres == spheres[..n]
    ensures |r.system.squaredRadii| == n
    ensures forall i :: 0 <= i < n ==> r.system.squaredRadii[i] == spheres[i].radius * spheres[i].radius
    ensures r.system.particles == sys.particles && r.system.emitter == sys.emitter && r.system.mesh == sys.mesh
  {
    var chosen := spheres[..n];
    Applied(true, sys.(spheres := chosen, squaredRadii := SquaredRadii(chosen)))
  }

  /** `n` freshly allocated particles: particle i takes the i-th draw times 20 as lifespan,
      radius 0.5 and `mesh`; its other fields are those `slots(i)` held before. */
  function FreshParticles(n: nat, mesh: MeshRef, slots: nat -> Particle, rng: Source): (r: Drawn<seq<Particle>>)
    ensures |r.value| == n
    ensures r.rest == Skip(rng, n)
    ensures forall i :: 0 <= i < n ==>
      r.value[i] == slots(i).(lifespan := RandF(Skip(rng, i)).value * 20.0, radius := 0.5, mesh := mesh)
  {
    if n == 0 then Drawn([], rng)
    else
      var prefix := FreshParticles(n - 1, mesh, slots, rng);
      var life := RandF(prefix.rest);
      Drawn(prefix.value + [slots(n - 1).(lifespan := life.value * 20.0, radius := 0.5, mesh := mesh)], life.rest)
  }

  /** `SetNumberOfParticles(n)`: a different count resizes the array to `n` and rewrites the
      lifespan, radius and mesh of every slot; the same count changes nothing. `slots(i)` is
      what slot i holds after the resize, before the loop writes it; nothing makes two slots
      alike, and a shrinking resize may leave an old particle's other fields in place. */
  function SetNumberOfParticles(sys: System, n: nat, slots: nat -> Particle, rng: Source): (r: Outcome)
    ensures r.ok
    ensures |r.system.particles| == n
    ensures r.system.emitter == sys.emitter && r.system.spheres == sys.spheres
    ensures r.system.squaredRadii == sys.squaredRadii && r.system.mesh == sys.mesh
    ensures |sys.particles| == n ==> r.system == sys && r.rest == rng
    ensures |sys.particles| != n ==>
      && r.rest == Skip(rng, n)
      && forall i :: 0 <= i < n ==>
        var q := r.system.particles[i];
        && 0.0 <= q.lifespan <= 20.0 && q.radius == 0.5 && q.mesh == sys.mesh
        && q.position == slots(i).position && q.velocity == slots(i).velocity && q.color == slots(i).color
  {
    if |sys.particles| != n then
      var born := FreshParticles(n, sys.mesh, slots, rng);
      Outcome(true, sys.(particles := born.value), born.rest)
    else
      Outcome(true, sys, rng)
  }

  /** Resizing to the size just set is a no-op: the simulation is not restarted. */
  lemma ResizeIdempotent(sys: System, n: nat, slots: nat -> Particle, rng: Source)
    ensures var first := SetNumberOfParticles(sys, n, slots, rng);
      SetNumberOfParticles(first.system, n, slots, first.rest) == Outcome(true, first.system, first.rest)
  {
  }

  /** A new mesh reaches only particles allocated after it is set: existing particles keep
      their old mesh, and a resize hands the new one to every particle. */
  lemma MeshReachesOnlyNewParticles(sys: System, mesh: MeshRef, n: nat, slots: nat -> Particle, rng: Source)
    requires n != |sys.particles|
    ensures var withMesh := SetParticleMesh(sys, mesh).system;
      && withMesh.particles == sys.particles
      && forall q :: q in SetNumberOfParticles(withMesh, n, slots, rng).system.particles ==> q.mesh == mesh
  {
  }

  /** `SetCollisionSpheres` establishes the lockstep between the sphere list and its cache
      whatever state it starts from, and the other setters keep it. */
  lemma SettersKeepLockstep(sys: System, emitter: Emitter, mesh: MeshRef, spheres: seq<Sphere>, k: nat,
                            n: nat, slots: nat -> Particle, rng: Source)
    requires k <= |spheres|
    ensures Lockstep(SetCollisionSpheres(sys, spheres, k).system)
    ensures Lockstep(sys) ==>
      && Lockstep(SetEmitter(sys, emitter).system)
      && Lockstep(SetParticleMesh(sys, mesh).system)
      && Lockstep(SetNumberOfParticles(sys, n, slots, rng).system)
  {
  }

  /** An update leaves the sphere list and its cache as they were, so it keeps the lockstep. */
  lemma UpdateKeepsLockstep(sys: System, step: real, rng: Source, ops: Intrinsics)
    requires Lockstep(sys)
    ensures Lockstep(Update(sys, step, rng, ops).system)
  {
  }

  /** The ground invariant does not cover particles born in the step: an emitter that places
      particles at the origin respawns one whose centre is below its radius. */
  lemma NewbornMayStartBelowGround()
    ensures var rng := Source(n => 0, 0);
      var ops := Intrinsics(a => 0.0, a => 0.0, v => 0.0, v => v, (m, v) => Vec4(0.0, 0.0, 0.0, 1.0));
      var p := Particle(Vec3(0.0, 5.0, 0.0), Vec3(0.0, 0.0, 0.0), 0.5, Vec4(1.0, 1.0, 1.0, 1.0), 0.0, NoMesh);
      var e := Emitter(Mat4([]), 1.0, 1.0);
      var r := StepParticle(p, 1.0, e, [], [], rng, ops).value;
      r.position.y < r.radius
  {
  }
}
