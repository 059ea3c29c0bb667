/** The motion of a surviving particle during one update: explicit integration under
    gravity, resolution against the first penetrated sphere, then the ground plane
    (ParticleSystemCPU.cpp:73-106). */
module Physics {
  import opened Vectors
  import opened Particles

  /** Vertical acceleration, in units per second squared. */
  const Gravity: real := 0.98
  /** Fraction of its speed a particle keeps when thrown off a sphere. */
  const SphereBounce: real := 0.5
  /** Ground contact keeps 40% of the horizontal velocity and reverses 30% of the vertical. */
  const GroundFriction: real := 0.4
  const GroundRestitution: real := -0.3

  /** Advance position by the old velocity, then pull the vertical velocity down by gravity. */
  function Integrate(p: Particle, step: real): (r: Particle)
    ensures Sub(r.position, p.position) == Scale(p.velocity, step)
    ensures r.velocity.x == p.velocity.x && r.velocity.z == p.velocity.z
    ensures r.velocity.y - p.velocity.y == -Gravity * step
    ensures r.radius == p.radius && r.color == p.color && r.lifespan == p.lifespan && r.mesh == p.mesh
    ensures step == 0.0 ==> r == p
  {
    p.(position := Add(Scale(p.velocity, step), p.position),
       velocity := p.velocity.(y := p.velocity.y + step * -Gravity))
  }

  /** `pos` lies strictly inside a sphere whose cached squared radius is `radiusSq`. */
  predicate Penetrates(pos: Vec3, s: Sphere, radiusSq: real)
  {
    LenSqr(Sub(pos, s.center)) < radiusSq
  }

  datatype Hit = NoHit | HitAt(index: nat)

  /** The lowest index from `from` on whose sphere `pos` penetrates, if any. */
  function FirstHitFrom(pos: Vec3, spheres: seq<Sphere>, squaredRadii: seq<real>, from: nat): (h: Hit)
    requires |spheres| <= |squaredRadii|
    requires from <= |spheres|
    ensures h.HitAt? ==>
      && from <= h.index < |spheres|
      && Penetrates(pos, spheres[h.index], squaredRadii[h.index])
      && forall j :: from <= j < h.index ==> !Penetrates(pos, spheres[j], squaredRadii[j])
    ensures h.NoHit? ==> forall j :: from <= j < |spheres| ==> !Penetrates(pos, spheres[j], squaredRadii[j])
    decreases |spheres| - from
  {
    if from == |spheres| then NoHit
    else if Penetrates(pos, spheres[from], squaredRadii[from]) then HitAt(from)
    else FirstHitFrom(pos, spheres, squaredRadii, from + 1)
  }

  function FirstHit(pos: Vec3, spheres: seq<Sphere>, squaredRadii: seq<real>): Hit
    requires |spheres| <= |squaredRadii|
  {
    FirstHitFrom(pos, spheres, squaredRadii, 0)
  }

  /** Project the particle onto the sphere's surface along the centre-to-particle direction
      and send it off along that direction at half its current speed. */
  function ResolveSphere(p: Particle, s: Sphere, ops: Intrinsics): (r: Particle)
    ensures var dir := ops.normalized(Sub(p.position, s.center));
      && Sub(r.position, s.center) == Scale(dir, s.radius)
      && r.velocity == Scale(dir, ops.length(p.velocity) * SphereBounce)
    ensures r.radius == p.radius && r.color == p.color && r.lifespan == p.lifespan && r.mesh == p.mesh
  {
    var dir := ops.normalized(Sub(p.position, s.center));
    p.(position := Add(s.center, Scale(dir, s.radius)),
       velocity := Scale(Scale(dir, ops.length(p.velocity)), SphereBounce))
  }

  /** Resolve against the first penetrated sphere only; without one the particle is untouched. */
  function CollideSpheres(p: Particle, spheres: seq<Sphere>, squaredRadii: seq<real>, ops: Intrinsics): (r: Particle)
    requires |spheres| <= |squaredRadii|
    ensures r.radius == p.radius && r.color == p.color && r.lifespan == p.lifespan && r.mesh == p.mesh
    ensures (forall j :: 0 <= j < |spheres| ==> !Penetrates(p.position, spheres[j], squaredRadii[j])) ==> r == p
  {
    match FirstHit(p.position, spheres, squaredRadii)
    case NoHit => p
    case HitAt(k) => ResolveSphere(p, spheres[k], ops)
  }

  /** Sphere resolution is decided by the lowest-index penetrated sphere: when that is
      sphere k, the search reports k and the particle comes out resolved against sphere k. */
  lemma FirstHitWins(p: Particle, spheres: seq<Sphere>, squaredRadii: seq<real>, ops: Intrinsics, k: nat)
    requires |spheres| <= |squaredRadii|
    requires k < |spheres| && Penetrates(p.position, spheres[k], squaredRadii[k])
    requires forall j :: 0 <= j < k ==> !Penetrates(p.position, spheres[j], squaredRadii[j])
    ensures FirstHit(p.position, spheres, squaredRadii) == HitAt(k)
    ensures CollideSpheres(p, spheres, squaredRadii, ops) == ResolveSphere(p, spheres[k], ops)
  {
  }

  /** Spheres after the first hit are never examined: any change to them, including
      dropping them, leaves the outcome the same. */
  lemma LaterSpheresIgnored(p: Particle, spheres: seq<Sphere>, squaredRadii: seq<real>,
                            spheres': seq<Sphere>, squaredRadii': seq<real>, ops: Intrinsics, k: nat)
    requires |spheres| <= |squaredRadii| && |spheres'| <= |squaredRadii'|
    requires FirstHit(p.position, spheres, squaredRadii) == HitAt(k)
    requires k < |spheres'| && spheres'[..k + 1] == spheres[..k + 1]
    requires squaredRadii'[..k + 1] == squaredRadii[..k + 1]
    ensures CollideSpheres(p, spheres', squaredRadii', ops) == CollideSpheres(p, spheres, squaredRadii, ops)
  {
  }

  /** A resolved particle sits exactly on the surface of the sphere it hit, whenever the
      normalisation of the centre-to-particle vector yields a unit vector. */
  lemma ResolvedOnSurface(p: Particle, s: Sphere, ops: Intrinsics)
    requires LenSqr(ops.normalized(Sub(p.position, s.center))) == 1.0
    ensures LenSqr(Sub(ResolveSphere(p, s, ops).position, s.center)) == s.radius * s.radius
  {
  }

  /** Keep the particle above the ground plane y = radius, damping it on contact. */
  function GroundClamp(p: Particle): (r: Particle)
    ensures r.position.y >= r.radius
    ensures r.position.x == p.position.x && r.position.z == p.position.z
    ensures r.radius == p.radius && r.color == p.color && r.lifespan == p.lifespan && r.mesh == p.mesh
    ensures p.position.y < p.radius ==>
      && r.position.y == p.radius
      && r.velocity == Vec3(p.velocity.x * GroundFriction, p.velocity.y * GroundRestitution, p.velocity.z * GroundFriction)
    ensures p.position.y >= p.radius ==> r == p
  {
    if p.position.y < p.radius then
      p.(position := p.position.(y := p.radius),
         velocity := Vec3(p.velocity.x * GroundFriction, p.velocity.y * GroundRestitution, p.velocity.z * GroundFriction))
    else
      p
  }

  /** Clamping twice is clamping once. */
  lemma GroundClampIdempotent(p: Particle)
    ensures GroundClamp(GroundClamp(p)) == GroundClamp(p)
  {
  }

  /** A particle falling onto the ground leaves it rising, slower than it arrived. */
  lemma GroundContactDampsFall(p: Particle)
    requires p.position.y < p.radius && p.velocity.y < 0.0
    ensures 0.0 < GroundClamp(p).velocity.y < -p.velocity.y
  {
  }
}
