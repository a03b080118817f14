/** The force generators and the force registry of src/pfgen.rs.
    The source shares particles through reference-counted cells; here the
    particles live in an arena, a sequence of distinct `Particle` objects,
    and a registration or a two-particle spring names a particle by its
    index in that arena. The open set of generator types becomes the closed
    datatype `ForceGenerator`, dispatched by the single method `UpdateForce`.
    The force each generator computes is a pure function that yields `None`
    exactly when the source returns before calling `add_force`. */
module ForceGenerators {
  import opened Precision
  import opened Vector3
  import opened Particles

  datatype Option<T> = None | Some(value: T)

  /** The five implemented generators. `other` is the arena index of the
      particle at the far end of a spring or bungee. */
  datatype ForceGenerator =
    | Gravity(gravity: Vec3)
    | Drag(k1: Real, k2: Real)
    | Spring(other: nat, springConstant: Real, restLength: Real)
    | AnchoredSpring(anchor: Vec3, springConstant: Real, restLength: Real)
    | Bungee(other: nat, springConstant: Real, restLength: Real)
  {
    /** Whether the generator reads a second particle. */
    predicate HasOther()
    {
      Spring? || Bungee?
    }
  }

  // --- The forces, as pure functions ---

  /** `ParticleGravity::update_force`: `gravity * mass` for a particle with
      finite mass, nothing otherwise. */
  function GravityForce(gravity: Vec3, p: ParticleState): (r: Option<Vec3>)
    ensures r.None? <==> !p.HasFiniteMass()
  {
    if !p.HasFiniteMass() then None else Some(Scale(gravity, p.Mass()))
  }

  /** The strength of the drag at `speed`: `k1 * speed + k2 * speed^2`. */
  function DragCoefficient(k1: Real, k2: Real, speed: Real): Real {
    k1 * speed + k2 * speed * speed
  }

  /** The drag strength is never negative when the coefficients and the
      speed are not. */
  lemma DragCoefficientNonNegative(k1: Real, k2: Real, speed: Real)
    requires 0.0 <= k1 && 0.0 <= k2 && 0.0 <= speed
    ensures 0.0 <= DragCoefficient(k1, k2, speed)
  {
    NonNegativeProduct(k1, speed);
    NonNegativeProduct(k2, speed);
    NonNegativeProduct(k2 * speed, speed);
  }

  /** `ParticleDrag::update_force`: for a moving particle, a force against
      the direction of motion of strength `k1 * speed + k2 * speed^2`. */
  function DragForce(velocity: Vec3, k1: Real, k2: Real): (r: Option<Vec3>)
    ensures r.None? <==> Magnitude(velocity) <= 0.0
  {
    var speed := Magnitude(velocity);
    if speed <= 0.0 then None
    else Some(Scale(Normalized(velocity), -DragCoefficient(k1, k2, speed)))
  }

  /** The tension of a spring stretched to `length`: `(length - rest) * k`,
      positive when stretched, negative when compressed. */
  function Tension(length: Real, rest: Real, k: Real): Real
  {
    (length - rest) * k
  }

  /** The restoring strength `k * (rest - length)` the anchored spring and
      the bungee compute. */
  function Restoring(k: Real, rest: Real, length: Real): Real
  {
    k * (rest - length)
  }

  /** `ParticleSpring::update_force` for a particle at `position` whose
      partner is at `otherPosition`: along the separation `d`, a force of
      `-(|d| - restLength) * springConstant`; nothing when the two coincide. */
  function SpringForce(position: Vec3, otherPosition: Vec3, springConstant: Real, restLength: Real)
    : (r: Option<Vec3>)
    ensures r.None? <==> Magnitude(Sub(position, otherPosition)) <= 0.0
  {
    var d := Sub(position, otherPosition);
    var magnitude := Magnitude(d);
    if magnitude <= 0.0 then None
    else Some(Scale(Normalized(d), -Tension(magnitude, restLength, springConstant)))
  }

  /** `ParticleAnchoredSpring::update_force`: along the separation `d` from
      the anchor, a force of `springConstant * (restLength - |d|)`; nothing
      when the particle sits on the anchor. */
  function AnchoredSpringForce(position: Vec3, anchor: Vec3, springConstant: Real, restLength: Real)
    : (r: Option<Vec3>)
    ensures r.None? <==> Magnitude(Sub(position, anchor)) <= 0.0
  {
    var d := Sub(position, anchor);
    var magnitude := Magnitude(d);
    if magnitude <= 0.0 then None
    else Some(Scale(Normalized(d), Restoring(springConstant, restLength, magnitude)))
  }

  /** `ParticleBungee::update_force`: nothing while the bungee is slack or
      compressed; once stretched, the source negates a value that already
      holds `springConstant * (restLength - |d|)`. */
  function BungeeForce(position: Vec3, otherPosition: Vec3, springConstant: Real, restLength: Real)
    : (r: Option<Vec3>)
    ensures r.None? <==> Magnitude(Sub(position, otherPosition)) <= restLength
  {
    var d := Sub(position, otherPosition);
    var magnitude := Magnitude(d);
    if magnitude <= restLength then None
    else Some(Scale(Normalized(d), -Restoring(springConstant, restLength, magnitude)))
  }

  /** The force generator `g` applies to particle `p`, where `arena` holds
      the state of every particle. */
  function Force(g: ForceGenerator, p: ParticleState, arena: seq<ParticleState>): Option<Vec3>
    requires g.HasOther() ==> g.other < |arena|
  {
    match g
    case Gravity(gravity) => GravityForce(gravity, p)
    case Drag(k1, k2) => DragForce(p.velocity, k1, k2)
    case Spring(other, k, rest) => SpringForce(p.position, arena[other].position, k, rest)
    case AnchoredSpring(anchor, k, rest) => AnchoredSpringForce(p.position, anchor, k, rest)
    case Bungee(other, k, rest) => BungeeForce(p.position, arena[other].position, k, rest)
  }

  /** The state of `p` after `add_force` has been called with `f`, or left
      alone when there is no force. */
  function AfterForce(p: ParticleState, f: Option<Vec3>): ParticleState
  {
    match f
    case None => p
    case Some(force) => p.(forceAccum := Add(p.forceAccum, force))
  }

  /** The force `g` contributes, zero when it adds none. */
  function ForceOrZero(g: ForceGenerator, p: ParticleState, arena: seq<ParticleState>): Vec3
    requires g.HasOther() ==> g.other < |arena|
  {
    match Force(g, p, arena)
    case None => ZERO
    case Some(force) => force
  }

  // --- The generators acting on particles ---

  /** The states of the particles in `arena`, in order. */
  function States(arena: seq<Particle>): (r: seq<ParticleState>)
    reads arena
    ensures |r| == |arena|
    ensures forall i :: 0 <= i < |arena| ==> r[i] == arena[i].State()
  {
    seq(|arena|, i requires 0 <= i < |arena| reads arena => arena[i].State())
  }

  /** `update_force` of every generator: it reads the particle and, for a
      spring or bungee, the other particle, and acts only through
      `add_force`. The other particle must be a different one: the source
      would fail a dynamic borrow check otherwise. The duration is not used
      by any generator. */
  method UpdateForce(g: ForceGenerator, particle: Particle, arena: seq<Particle>, duration: Real)
    requires g.HasOther() ==> g.other < |arena| && arena[g.other] != particle
    modifies particle
    ensures particle.State() == AfterForce(old(particle.State()), Force(g, old(particle.State()), old(States(arena))))
  {
    match g
    case Gravity(gravity) => UpdateGravity(gravity, particle);
    case Drag(k1, k2) => UpdateDrag(k1, k2, particle);
    case Spring(other, k, rest) => UpdateSpring(arena[other], k, rest, particle);
    case AnchoredSpring(anchor, k, rest) => UpdateAnchoredSpring(anchor, k, rest, particle);
    case Bungee(other, k, rest) => UpdateBungee(arena[other], k, rest, particle);
  }

  /** `ParticleGravity::update_force`. */
  method UpdateGravity(gravity: Vec3, particle: Particle)
    modifies particle
    ensures particle.State() == AfterForce(old(particle.State()), GravityForce(gravity, old(particle.State())))
  {
    if !particle.State().HasFiniteMass() {
      return;
    }
    particle.AddForce(Scale(gravity, particle.State().Mass()));
  }

  /** `ParticleDrag::update_force`. */
  method UpdateDrag(k1: Real, k2: Real, particle: Particle)
    modifies particle
    ensures particle.State() == AfterForce(old(particle.State()), DragForce(old(particle.velocity), k1, k2))
  {
    var force := particle.velocity;
    var speed := Magnitude(force);
    if speed <= 0.0 {
      return;
    }
    var dragCoeff := DragCoefficient(k1, k2, speed);
    force := Normalize(force);
    force := ScaleAssign(force, -dragCoeff);
    particle.AddForce(force);
  }

  /** `ParticleSpring::update_force`. */
  method UpdateSpring(other: Particle, k: Real, rest: Real, particle: Particle)
    requires other != particle
    modifies particle
    ensures particle.State()
         == AfterForce(old(particle.State()), SpringForce(old(particle.position), other.position, k, rest))
  {
    var force := Sub(particle.position, other.position);
    var magnitude := Magnitude(force);
    if magnitude <= 0.0 {
      return;
    }
    magnitude := Tension(magnitude, rest, k);
    force := Normalize(force);
    force := ScaleAssign(force, -magnitude);
    particle.AddForce(force);
  }

  /** `ParticleAnchoredSpring::update_force`. */
  method UpdateAnchoredSpring(anchor: Vec3, k: Real, rest: Real, particle: Particle)
    modifies particle
    ensures particle.State()
         == AfterForce(old(particle.State()), AnchoredSpringForce(old(particle.position), anchor, k, rest))
  {
    var force := Sub(particle.position, anchor);
    var magnitude := Magnitude(force);
    if magnitude <= 0.0 {
      return;
    }
    magnitude := Restoring(k, rest, magnitude);
    force := Normalize(force);
    force := ScaleAssign(force, magnitude);
    particle.AddForce(force);
  }

  /** `ParticleBungee::update_force`. */
  method UpdateBungee(other: Particle, k: Real, rest: Real, particle: Particle)
    requires other != particle
    modifies particle
    ensures particle.State()
         == AfterForce(old(particle.State()), BungeeForce(old(particle.position), other.position, k, rest))
  {
    var force := Sub(particle.position, other.position);
    var magnitude := Magnitude(force);
    if magnitude <= rest {
      return;
    }
    magnitude := Restoring(k, rest, magnitude);
    force := Normalize(force);
    force := ScaleAssign(force, -magnitude);
    particle.AddForce(force);
  }

  // --- The registry ---

  /** `ParticleForceRegistration`: a generator and the arena index of the
      particle it acts on. */
  datatype Registration = Registration(particle: nat, generator: ForceGenerator)

  /** The indices of `reg` lie in an arena of `n` particles, and a spring or
      bungee does not name its own particle as the other end. */
  predicate WellFormed(reg: Registration, n: nat)
  {
    && reg.particle < n
    && (reg.generator.HasOther() ==> reg.generator.other < n && reg.generator.other != reg.particle)
  }

  predicate AllWellFormed(regs: seq<Registration>, n: nat)
  {
    forall i :: 0 <= i < |regs| ==> WellFormed(regs[i], n)
  }

  /** No particle object appears twice in the arena. */
  predicate Distinct(arena: seq<Particle>)
  {
    forall i, j :: 0 <= i < j < |arena| ==> arena[i] != arena[j]
  }

  /** The arena after one registration's generator has run. */
  function ApplyRegistration(states: seq<ParticleState>, reg: Registration): seq<ParticleState>
    requires WellFormed(reg, |states|)
  {
    var p := states[reg.particle];
    states[reg.particle := AfterForce(p, Force(reg.generator, p, states))]
  }

  /** The arena after the generators of `regs` have run, first to last. */
  function ApplyRegistrations(states: seq<ParticleState>, regs: seq<Registration>): (r: seq<ParticleState>)
    requires AllWellFormed(regs, |states|)
    ensures |r| == |states|
    decreases |regs|
  {
    if regs == [] then states
    else ApplyRegistration(ApplyRegistrations(states, regs[..|regs| - 1]), regs[|regs| - 1])
  }

  /** The sum of the forces the registrations in `regs` aimed at particle
      `j` contribute, each evaluated on the arena `states`. */
  function TotalForce(states: seq<ParticleState>, regs: seq<Registration>, j: nat): Vec3
    requires AllWellFormed(regs, |states|)
    decreases |regs|
  {
    if regs == [] then ZERO
    else
      var reg := regs[|regs| - 1];
      var rest := TotalForce(states, regs[..|regs| - 1], j);
      if reg.particle == j then Add(rest, ForceOrZero(reg.generator, states[j], states)) else rest
  }

  class ParticleForceRegistry {
    var registrations: seq<Registration>

    /** A registry holding `registrations`, in order. */
    constructor (registrations: seq<Registration>)
      ensures this.registrations == registrations
    {
      this.registrations := registrations;
    }

    /** `update_forces`: runs every registration's generator once, in
        order, on that registration's particle. */
    method UpdateForces(arena: seq<Particle>, duration: Real)
      requires Distinct(arena)
      requires AllWellFormed(registrations, |arena|)
      modifies arena
      ensures States(arena) == ApplyRegistrations(old(States(arena)), registrations)
    {
      var k := 0;
      while k < |registrations|
        invariant 0 <= k <= |registrations|
        invariant States(arena) == ApplyRegistrations(old(States(arena)), registrations[..k])
      {
        var reg := registrations[k];
        ghost var before := States(arena);
        UpdateForce(reg.generator, arena[reg.particle], arena, duration);
        assert registrations[..k + 1][..k] == registrations[..k];
        assert States(arena) == ApplyRegistration(before, reg);
        k := k + 1;
      }
      assert registrations[..k] == registrations;
    }
  }

  // --- Properties ---

  /** A generator acts only through `add_force`: apart from the force
      accumulator, the particle is unchanged. */
  lemma ForceChangesOnlyAccumulator(p: ParticleState, f: Option<Vec3>)
    ensures AfterForce(p, f).(forceAccum := p.forceAccum) == p
    ensures f.Some? ==> Sub(AfterForce(p, f).forceAccum, p.forceAccum) == f.value
  {
  }

  /** Two arenas that agree on everything but the force accumulators. */
  predicate SameMotion(a: seq<ParticleState>, b: seq<ParticleState>)
  {
    && |a| == |b|
    && forall i :: 0 <= i < |a| ==> a[i].(forceAccum := ZERO) == b[i].(forceAccum := ZERO)
  }

  /** No generator reads a force accumulator, so forces added earlier in a
      frame do not change the forces added later. */
  lemma ForceIgnoresAccumulators(g: ForceGenerator, p: ParticleState, q: ParticleState,
                                 a: seq<ParticleState>, b: seq<ParticleState>)
    requires g.HasOther() ==> g.other < |a|
    requires SameMotion(a, b)
    requires p.(forceAccum := ZERO) == q.(forceAccum := ZERO)
    ensures Force(g, p, a) == Force(g, q, b)
  {
    assert p.position == q.position && p.velocity == q.velocity && p.inverseMass == q.inverseMass;
    if g.HasOther() {
      assert a[g.other].position == b[g.other].position;
    }
  }

  /** Forces accumulate: after `update_forces`, every particle keeps its
      motion and its accumulator has grown by the sum of the forces of the
      registrations aimed at it, each computed on the arena as it stood
      before the loop. */
  lemma {:induction false} UpdateForcesAddsTotalForce(states: seq<ParticleState>, regs: seq<Registration>, j: nat)
    requires AllWellFormed(regs, |states|)
    requires j < |states|
    ensures ApplyRegistrations(states, regs)[j]
         == states[j].(forceAccum := Add(states[j].forceAccum, TotalForce(states, regs, j)))
    decreases |regs|
  {
    if regs == [] {
      assert Add(states[j].forceAccum, ZERO) == states[j].forceAccum;
    } else {
      var init := regs[..|regs| - 1];
      var reg := regs[|regs| - 1];
      assert AllWellFormed(init, |states|);
      var mid := ApplyRegistrations(states, init);
      forall i | 0 <= i < |states|
        ensures mid[i] == states[i].(forceAccum := Add(states[i].forceAccum, TotalForce(states, init, i)))
      {
        UpdateForcesAddsTotalForce(states, init, i);
      }
      assert SameMotion(mid, states);
      var p := reg.particle;
      ForceIgnoresAccumulators(reg.generator, mid[p], states[p], mid, states);
      if p == j {
        AddAssociates(states[j].forceAccum, TotalForce(states, init, j),
                      ForceOrZero(reg.generator, states[j], states));
      }
    }
  }

  /** Newton's third law for `ParticleSpring`: the spring pushes its two ends
      with opposite forces, and acts on one end exactly when it acts on the
      other. */
  lemma SpringObeysThirdLaw(a: Vec3, b: Vec3, k: Real, rest: Real)
    ensures SpringForce(a, b, k, rest).None? <==> SpringForce(b, a, k, rest).None?
    ensures SpringForce(a, b, k, rest).Some? ==>
      SpringForce(b, a, k, rest).value == Negated(SpringForce(a, b, k, rest).value)
  {
    var d := Sub(a, b);
    SubSwapNegates(a, b);
    NegationKeepsMagnitude(d);
    if EPSILON < MagnitudeSquared(d) && 0.0 < Magnitude(d) {
      SpringObeysThirdLawWhenApart(a, b, k, rest);
    } else if 0.0 < Magnitude(d) {
      SpringBelowThreshold(a, b, k, rest);
      SpringBelowThreshold(b, a, k, rest);
      NegatedZero();
    }
  }

  /** The case of `SpringObeysThirdLaw` where the ends are far enough apart
      for `normalized` to give a direction. */
  lemma SpringObeysThirdLawWhenApart(a: Vec3, b: Vec3, k: Real, rest: Real)
    requires EPSILON < MagnitudeSquared(Sub(a, b)) && 0.0 < Magnitude(Sub(a, b))
    ensures SpringForce(a, b, k, rest).Some? && SpringForce(b, a, k, rest).Some?
    ensures SpringForce(b, a, k, rest).value == Negated(SpringForce(a, b, k, rest).value)
  {
    var d := Sub(a, b);
    var e := Sub(b, a);
    SubSwapNegates(a, b);
    NegationKeepsMagnitude(d);
    var m := Magnitude(d);
    assert Magnitude(e) == m;
    NormalizedOfLongNegation(d);
    var c := -Tension(m, rest, k);
    assert SpringForce(a, b, k, rest) == Some(Scale(Normalized(d), c));
    assert SpringForce(b, a, k, rest) == Some(Scale(Normalized(e), c));
    ScaleNegationCommutes(Normalized(d), c);
  }

  /** Ends closer than the `normalized` threshold, but not coinciding, get a
      zero force. */
  lemma SpringBelowThreshold(a: Vec3, b: Vec3, k: Real, rest: Real)
    requires MagnitudeSquared(Sub(a, b)) <= EPSILON && 0.0 < Magnitude(Sub(a, b))
    ensures SpringForce(a, b, k, rest) == Some(ZERO)
  {
    ScaleZero(ZERO, -Tension(Magnitude(Sub(a, b)), rest, k));
  }

  /** An anchored spring pulls exactly as a two-particle spring would if its
      other end were a particle sitting at the anchor. */
  lemma AnchoredSpringIsSpringToAnchor(position: Vec3, anchor: Vec3, k: Real, rest: Real)
    ensures AnchoredSpringForce(position, anchor, k, rest) == SpringForce(position, anchor, k, rest)
  {
    var m := Magnitude(Sub(position, anchor));
    assert Restoring(k, rest, m) == -Tension(m, rest, k);
  }

  /** An anchored spring at its rest length adds a zero force. */
  lemma AnchoredSpringAtRestLength(position: Vec3, anchor: Vec3, k: Real, rest: Real)
    requires 0.0 < rest && Magnitude(Sub(position, anchor)) == rest
    ensures AnchoredSpringForce(position, anchor, k, rest) == Some(ZERO)
  {
    var d := Sub(position, anchor);
    var c := Restoring(k, rest, Magnitude(d));
    assert AnchoredSpringForce(position, anchor, k, rest) == Some(Scale(Normalized(d), c));
    assert rest - Magnitude(d) == 0.0;
    assert c == 0.0;
    ScaleZero(Normalized(d), 0.0);
  }

  /** A stretched bungee with a non-negative rest length adds the opposite of
      what a spring with the same constants adds: as written, it pushes the
      ends apart where a spring pulls them together. */
  lemma BungeeIsReversedSpring(a: Vec3, b: Vec3, k: Real, rest: Real)
    requires 0.0 <= rest < Magnitude(Sub(a, b))
    ensures SpringForce(a, b, k, rest).Some?
    ensures BungeeForce(a, b, k, rest) == Some(Negated(SpringForce(a, b, k, rest).value))
  {
    var d := Sub(a, b);
    var m := Magnitude(d);
    var c := -Tension(m, rest, k);
    ScaleNegatedFactor(Normalized(d), c);
    assert -c == -Restoring(k, rest, m);
  }

  /** Gravity adds a force that, divided by the particle's mass, is the
      gravitational acceleration. */
  lemma GravityGivesItsAcceleration(gravity: Vec3, p: ParticleState)
    requires p.IsMovable()
    ensures GravityForce(gravity, p).Some?
    ensures Scale(GravityForce(gravity, p).value, p.inverseMass) == gravity
  {
    var m := p.Mass();
    ScaleScale(gravity, m, p.inverseMass);
    assert m * p.inverseMass == 1.0;
  }

  /** A particle of mass 2 under gravity `(0, -10, 0)` gets the force
      `(0, -20, 0)`. */
  lemma GravityOnMassTwo(gravity: Vec3, p: ParticleState)
    requires gravity == Vec3(0.0, -10.0, 0.0)
    requires p.inverseMass == 1.0 / 2.0
    ensures GravityForce(gravity, p) == Some(Vec3(0.0, -20.0, 0.0))
  {
    assert p.Mass() == 2.0;
  }

  /** Because `has_finite_mass` accepts a zero inverse mass, an immovable
      particle is not skipped: it is given `gravity` scaled by the `MAX`
      sentinel mass. */
  lemma GravityOnImmovableParticle(gravity: Vec3, p: ParticleState)
    requires p.inverseMass == 0.0
    ensures GravityForce(gravity, p) == Some(Scale(gravity, MAX))
  {
  }

  /** A particle at rest feels no drag. */
  lemma DragAtRest(k1: Real, k2: Real)
    requires SqrtLaw()
    ensures DragForce(ZERO, k1, k2) == None
  {
    SqrtOfSquare(0.0);
    assert MagnitudeSquared(ZERO) == 0.0 * 0.0;
  }

  /** With non-negative coefficients, drag never has a component along the
      velocity: it opposes the motion. */
  lemma DragOpposesMotion(velocity: Vec3, k1: Real, k2: Real)
    requires SqrtLaw() && RecipLaw()
    requires 0.0 <= k1 && 0.0 <= k2
    requires DragForce(velocity, k1, k2).Some?
    ensures Dot(DragForce(velocity, k1, k2).value, velocity) <= 0.0
  {
    var s := Magnitude(velocity);
    assert 0.0 <= s;
    var c := DragCoefficient(k1, k2, s);
    DragCoefficientNonNegative(k1, k2, s);
    var n := Normalized(velocity);
    DotScale(n, -c, velocity);
    if EPSILON < MagnitudeSquared(velocity) {
      NormalizedAlignsWithInput(velocity);
      NonNegativeProduct(c, s);
    } else {
      assert n == ZERO;
    }
  }

  /** Two particles two units apart on a spring of rest length 1 and
      constant 5: the particle is pulled towards its partner with a force of
      strength 5. */
  lemma SpringExample(a: Vec3, b: Vec3)
    requires SqrtLaw() && RecipLaw()
    requires a == Vec3(3.0, 0.0, 0.0) && b == Vec3(1.0, 0.0, 0.0)
    ensures SpringForce(a, b, 5.0, 1.0) == Some(Vec3(-5.0, 0.0, 0.0))
  {
    var d := Sub(a, b);
    assert d == Vec3(2.0, 0.0, 0.0);
    assert MagnitudeSquared(d) == 2.0 * 2.0;
    SqrtOfSquare(2.0);
    assert Magnitude(d) == 2.0;
    NormalizedFormula(d);
    var k := Recip(2.0);
    assert 2.0 * k == 1.0;
    assert Normalized(d) == Vec3(1.0, 0.0, 0.0);
  }
}
