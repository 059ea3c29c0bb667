# CPU particle system, modelled in Dafny

A model of `ParticleSystemCPU`, the CPU particle simulation of the DrawLoad demo. The system
keeps a fixed-length array of particles. Once per frame `Update(step)` ages every particle.
A particle whose lifespan has run out is re-emitted in place from a cone/disc emitter with
random size and colour. Every other particle is integrated under gravity, pushed out of the
first collision sphere it penetrates, and then kept above the ground plane. Setters replace
the emitter, the particle mesh, the sphere list (with its cache of squared radii) and the
particle count.

The model is functional. Particles, spheres and the emitter are immutable records over
`real`, and every operation is a pure function of the old state. The C library's `rand()`
is an injected stream of integer draws in `[0, RAND_MAX]` with a cursor: operations take a
`Random.Source` and return the source advanced past the draws they used. `sin`, `cos`, vector
`length()`, `normalized()` and the matrix-vector product are fields of a
`Vectors.Intrinsics` record and are not interpreted.

Files:
- `vectors.dfy` (`Vectors`): 3- and 4-component vectors, squared length, and the uninterpreted primitives.
- `random.dfy` (`Random`): the generator stream and `randf()`.
- `particles.dfy` (`Particles`): particle, sphere, emitter and mesh-handle records.
- `emission.dfy` (`Emission`): `EmitParticle`.
- `physics.dfy` (`Physics`): integration, first-hit sphere resolution, ground clamp.
- `particle_system.dfy` (`ParticleSystem`): the system state, the per-particle step, `Update` and the setters.

Behaviour of the code worth knowing:
- `randf()` divides one `rand()` draw by `RAND_MAX`, so draws lie in the closed interval [0, 1]. Every range derived from them is closed: lifespans [12, 31] and [0, 20], radius [0.3, 0.9]. `Random.RandF` shows that both ends are reachable.
- `EmitParticle` accepts a seed (the expired lifespan) but never reads it (`Emission.SeedIsIgnored`).
- A particle respawned during an update skips the ground clamp (`continue` at line 70). Only particles that survive the step are guaranteed to end with position.y >= radius. `ParticleSystem.NewbornMayStartBelowGround` gives a concrete respawn that ends below its radius.
- No setter validates its input. Zero or negative radii, heights and degenerate transforms are accepted as they are.

## Model

| member | source | states |
|---|---|---|
| `Random.RandF` | Demos/DrawLoadDemo/Source/ParticleSystemCPU.cpp:15-18 | one draw over RAND_MAX lies in the closed interval [0, 1]; it is 0 exactly when rand() returns 0 and 1 exactly when rand() returns RAND_MAX; exactly one draw is consumed |
| `Emission.EmitParticle` | Demos/DrawLoadDemo/Source/ParticleSystemCPU.cpp:20-37 | emission consumes seven draws; radius in [0.3, 0.9]; colour channels in [0, 1] with alpha 1; velocity is the new position times the first draw times 4; lifespan and mesh unchanged |
| `Emission.EmittedFromVolume` | Demos/DrawLoadDemo/Source/ParticleSystemCPU.cpp:22-32 | the emitted position is the emitter transform of the local point (r sin a, u*height, r cos a, 1) where a, u and r/radius are the first three draws, each in [0, 1]; velocity points along the position |
| `Emission.SeedIsIgnored` | Demos/DrawLoadDemo/Source/ParticleSystemCPU.cpp:20-37 | two emissions differing only in the seed give identical particles and draws |
| `Physics.Integrate` | Demos/DrawLoadDemo/Source/ParticleSystemCPU.cpp:74-77 | displacement equals old velocity times step; vertical velocity changes by -0.98 times step; horizontal velocity and all other fields unchanged; a zero step changes nothing |
| `Physics.FirstHitFrom` | Demos/DrawLoadDemo/Source/ParticleSystemCPU.cpp:80-96 | a hit is the lowest index whose squared distance is below its cached squared radius, with no lower index penetrated; no hit means no sphere is penetrated |
| `Physics.ResolveSphere` | Demos/DrawLoadDemo/Source/ParticleSystemCPU.cpp:89-92 | the new position is the centre plus the normalised centre-to-particle direction times the sphere radius; the new velocity is that direction times half the old speed; other fields unchanged |
| `Physics.CollideSpheres` | Demos/DrawLoadDemo/Source/ParticleSystemCPU.cpp:80-96 | a particle that penetrates no sphere is left exactly as it was; radius, colour, lifespan and mesh are never changed |
| `Physics.FirstHitWins` | Demos/DrawLoadDemo/Source/ParticleSystemCPU.cpp:81-95 | when sphere k is penetrated and no earlier one is, the search reports k and the result is the resolution against sphere k |
| `Physics.LaterSpheresIgnored` | Demos/DrawLoadDemo/Source/ParticleSystemCPU.cpp:87-94 | once sphere k is the first hit, replacing or dropping the spheres after k does not change the outcome |
| `Physics.ResolvedOnSurface` | Demos/DrawLoadDemo/Source/ParticleSystemCPU.cpp:89-91 | when normalisation returns a unit vector, the resolved particle lies exactly on the sphere surface |
| `Physics.GroundClamp` | Demos/DrawLoadDemo/Source/ParticleSystemCPU.cpp:99-106 | afterwards position.y >= radius; on contact y becomes the radius, velocity x and z scale by 0.4 and y by -0.3; without contact nothing changes |
| `Physics.GroundClampIdempotent` | Demos/DrawLoadDemo/Source/ParticleSystemCPU.cpp:99-106 | clamping an already clamped particle changes nothing |
| `Physics.GroundContactDampsFall` | Demos/DrawLoadDemo/Source/ParticleSystemCPU.cpp:103-105 | a falling particle that touches the ground leaves it rising, with smaller vertical speed |
| `ParticleSystem.StepParticle` | Demos/DrawLoadDemo/Source/ParticleSystemCPU.cpp:63-106 | an expiring particle consumes eight draws and gets lifespan in [12, 31], radius in [0.3, 0.9] and fresh colour; a surviving particle consumes none, loses `step` of lifespan, keeps radius and colour, and ends with position.y >= radius; the mesh is always kept |
| `ParticleSystem.RespawnSkipsMotion` | Demos/DrawLoadDemo/Source/ParticleSystemCPU.cpp:66-71 | an expiring particle ends at the spawn position from the first three draws, with velocity its position times the first draw times 4 and lifespan 19 times the eighth draw plus 12: it is neither integrated, collided nor clamped |
| `ParticleSystem.SurvivorMotion` | Demos/DrawLoadDemo/Source/ParticleSystemCPU.cpp:72-106 | a surviving particle that penetrates no sphere ends at position + velocity*step, with y raised to its radius if it fell below it |
| `ParticleSystem.StepAll` | Demos/DrawLoadDemo/Source/ParticleSystemCPU.cpp:60-107 | the loop keeps the particle count and consumes exactly eight draws per expiring particle |
| `ParticleSystem.StepAllAt` | Demos/DrawLoadDemo/Source/ParticleSystemCPU.cpp:60-107 | particle i's new state is the single-particle step of its own old state, fed with the draws left after the particles before it |
| `ParticleSystem.Update` | Demos/DrawLoadDemo/Source/ParticleSystemCPU.cpp:58-110 | always reports success, keeps the particle count, changes nothing but the particles, and consumes eight draws per expiring particle |
| `ParticleSystem.UpdateParticle` | Demos/DrawLoadDemo/Source/ParticleSystemCPU.cpp:58-110 | after an update each particle depends only on its own old state; survivors are above the ground with lifespan reduced by the step; expired ones have lifespan in [12, 31] and radius in [0.3, 0.9]; meshes are kept |
| `ParticleSystem.UpdateKeepsLockstep` | Demos/DrawLoadDemo/Source/ParticleSystemCPU.cpp:80-84 | an update keeps the sphere list and its cache of squared radii in lockstep |
| `ParticleSystem.SetEmitter` | Demos/DrawLoadDemo/Source/ParticleSystemCPU.cpp:115-119 | reports success, stores the emitter, and leaves particles, spheres, cache and mesh untouched |
| `ParticleSystem.SetParticleMesh` | Demos/DrawLoadDemo/Source/ParticleSystemCPU.cpp:121-125 | reports success, stores the mesh, and leaves particles (with their old meshes), emitter, spheres and cache untouched |
| `ParticleSystem.SquaredRadii` | Demos/DrawLoadDemo/Source/ParticleSystemCPU.cpp:139-143 | the cache has one entry per sphere, in order, each the square of that sphere's radius |
| `ParticleSystem.SetCollisionSpheres` | Demos/DrawLoadDemo/Source/ParticleSystemCPU.cpp:131-145 | reports success; the sphere list becomes the first n spheres given, in order; the cache has length n with entry i the square of sphere i's radius; particles, emitter and mesh unchanged |
| `ParticleSystem.SettersKeepLockstep` | Demos/DrawLoadDemo/Source/ParticleSystemCPU.cpp:131-145 | setting spheres establishes the lockstep from any state; the other setters preserve it |
| `ParticleSystem.FreshParticles` | Demos/DrawLoadDemo/Source/ParticleSystemCPU.cpp:154-161 | n particles, particle i with lifespan 20 times draw i, radius 0.5, the given mesh, and otherwise the contents of slot i; exactly n draws consumed |
| `ParticleSystem.SetNumberOfParticles` | Demos/DrawLoadDemo/Source/ParticleSystemCPU.cpp:150-165 | reports success and leaves n particles; the same count leaves state and generator untouched; a different count gives every particle lifespan in [0, 20], radius 0.5 and the stored mesh, consuming n draws; configuration untouched |
| `ParticleSystem.ResizeIdempotent` | Demos/DrawLoadDemo/Source/ParticleSystemCPU.cpp:150-165 | resizing twice to the same count is the same as resizing once |
| `ParticleSystem.MeshReachesOnlyNewParticles` | Demos/DrawLoadDemo/Source/ParticleSystemCPU.cpp:121-160 | a new mesh leaves existing particles alone, and every particle of a following resize carries it |
| `ParticleSystem.NewbornMayStartBelowGround` | Demos/DrawLoadDemo/Source/ParticleSystemCPU.cpp:66-71 | a concrete emitter and draw sequence for which a respawned particle ends its step with position.y below its radius |

## Left out

- IEEE-754 single-precision arithmetic (rounding, NaN, infinities): all quantities are `real`.
- The quality of `rand()`: it is an arbitrary stream of integers in [0, RAND_MAX]. Its shared global state is made explicit as a source that is passed in and returned.
- The platform's RAND_MAX: it is fixed at the GNU C library's 2^31 - 1. No property depends on the value beyond its being positive.
- `sin`, `cos`, `length()`, `normalized()` and the PVRTMat4 * PVRTVec4 product are uninterpreted `Intrinsics` fields. A `PVRTVec4` assigned to a position keeps its xyz part (`Vectors.Xyz`); that conversion is defined in headers that are not part of this model.
- Physics.ResolvedOnSurface: assumes normalisation yields a unit vector. Normalising the zero vector (particle exactly at a sphere centre) is left to the uninterpreted `normalized`.
- Physics.ResolveSphere: states the resolved position relative to the sphere centre, not its distance from it, because vector length and normalisation are uninterpreted.
- What `Clear` and `Resize` leave in each particle slot. Only lifespan, radius and mesh are written afterwards. CPVRTArray and the Particle type are defined in headers that are not part of this model. The remaining fields of slot i therefore come from `slots(i)`, a per-slot parameter of `SetNumberOfParticles`. It may hold a default-constructed particle or, after a shrink, the old particle i.
- The capacity handling of CPVRTArray (`SetCapacity`): it is covered by the per-slot parameter above and by the sphere list being rebuilt in full.
- The order in which C++ evaluates the three `randf()` arguments of the colour constructor is unspecified. The model takes them left to right. Only which draw feeds which channel depends on this.
- The 32-bit width of `unsigned int` counts and loop indices: counts are unbounded `nat`.
- The empty constructor and destructor, and the initial contents of the emitter and mesh members: the model starts from any given state.
