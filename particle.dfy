/** The point mass of src/particle.rs.
    A `Particle` is updated in place by its methods, so it is a class whose
    fields are the source's fields. `ParticleState` is the value those fields
    hold at one moment; the pure queries (`has_finite_mass`, `mass`) are
    defined on it, and every method states the particle's new state as a
    function of its old one. */
module Particles {
  import opened Precision
  import opened Vector3

  /** The six fields of a particle, as a value. */
  datatype ParticleState = ParticleState(
    position: Vec3,
    velocity: Vec3,
    acceleration: Vec3,
    damping: Real,
    inverseMass: Real,
    forceAccum: Vec3)
  {
    /** `has_finite_mass`: the source tests `inverse_mass >= 0`, so a particle
        with zero inverse mass -- the encoding of an immovable one -- also
        counts as having finite mass. */
    predicate HasFiniteMass(): (r: bool)
      ensures r <==> IsMovable() || inverseMass == 0.0
    {
      inverseMass >= 0.0
    }

    /** `mass`: the `MAX` sentinel for an immovable particle, otherwise the
        reciprocal of the inverse mass. */
    function Mass(): (r: Real)
      ensures inverseMass == 0.0 ==> r == MAX
      ensures inverseMass != 0.0 ==> r * inverseMass == 1.0
    {
      if inverseMass == 0.0 then MAX else 1.0 / inverseMass
    }

    /** Whether `integrate` moves this particle at all. */
    predicate IsMovable()
    {
      inverseMass > 0.0
    }
  }

  /** The state `integrate(duration)` leaves behind: a semi-implicit Euler
      step in which the position moves with the old velocity, the velocity
      then takes up the acceleration plus the accumulated force divided by
      the mass, is damped by `damping` raised to the duration, and the force
      accumulator is cleared. An immovable particle is left untouched. The
      source asserts a positive duration only on the movable path. */
  function Integrated(s: ParticleState, duration: Real): (r: ParticleState)
    requires s.IsMovable() ==> duration > 0.0
    ensures !s.IsMovable() ==> r == s
    ensures s.IsMovable() ==>
      && Sub(r.position, s.position) == Scale(s.velocity, duration)
      && r.acceleration == s.acceleration
      && r.damping == s.damping
      && r.inverseMass == s.inverseMass
      && r.forceAccum == ZERO
  {
    if !s.IsMovable() then s
    else
      var resultingAcc := Add(s.acceleration, Scale(s.forceAccum, s.inverseMass));
      var velocity := Add(s.velocity, Scale(resultingAcc, duration));
      ParticleState(
        Add(s.position, Scale(s.velocity, duration)),
        Scale(velocity, Pow(s.damping, duration)),
        s.acceleration,
        s.damping,
        s.inverseMass,
        ZERO)
  }

  class Particle {
    var position: Vec3
    var velocity: Vec3
    var acceleration: Vec3
    /** The fraction of velocity kept per unit of time. */
    var damping: Real
    var inverseMass: Real
    var forceAccum: Vec3

    /** The value the fields hold now. */
    function State(): ParticleState
      reads this
    {
      ParticleState(position, velocity, acceleration, damping, inverseMass, forceAccum)
    }

    /** `Particle::new`: every vector zero, no damping factor, and zero
        inverse mass (immovable). */
    constructor ()
      ensures State() == ParticleState(ZERO, ZERO, ZERO, 0.0, 0.0, ZERO)
      ensures !State().IsMovable() && State().Mass() == MAX
    {
      position := ZERO;
      velocity := ZERO;
      acceleration := ZERO;
      damping := 0.0;
      inverseMass := 0.0;
      forceAccum := ZERO;
    }

    /** `set_mass`: the source asserts a positive mass and stores its
        reciprocal; `mass()` then gives the mass back. */
    method SetMass(mass: Real)
      requires mass > 0.0
      modifies this
      ensures State() == old(State()).(inverseMass := 1.0 / mass)
      ensures State().Mass() == mass
      ensures State().IsMovable()
    {
      inverseMass := 1.0 / mass;
    }

    /** `integrate`: advances the particle by `duration`. */
    method Integrate(duration: Real)
      requires inverseMass > 0.0 ==> duration > 0.0
      modifies this
      ensures State() == Integrated(old(State()), duration)
    {
      if inverseMass <= 0.0 {
        return;
      }
      position := AddScaled(position, velocity, duration);
      var resultingAcc := acceleration;
      resultingAcc := AddScaled(resultingAcc, forceAccum, inverseMass);
      velocity := AddScaled(velocity, resultingAcc, duration);
      velocity := ScaleAssign(velocity, Pow(damping, duration));
      ClearAccumulator();
    }

    /** `clear_accumulator`: zeroes the accumulated force and nothing else. */
    method ClearAccumulator()
      modifies this
      ensures State() == old(State()).(forceAccum := ZERO)
    {
      forceAccum := Clear(forceAccum);
    }

    /** `add_force`: adds `force` to the accumulated force and nothing else. */
    method AddForce(force: Vec3)
      modifies this
      ensures State() == old(State()).(forceAccum := Add(old(forceAccum), force))
    {
      forceAccum := AddAssign(forceAccum, force);
    }
  }

  // --- Properties ---

  /** Setting a positive mass and reading it back gives the same mass, and
      the particle becomes movable. */
  lemma MassOfReciprocal(s: ParticleState, mass: Real)
    requires mass > 0.0
    ensures s.(inverseMass := 1.0 / mass).Mass() == mass
    ensures s.(inverseMass := 1.0 / mass).IsMovable()
  {
    var t := s.(inverseMass := 1.0 / mass);
    assert t.inverseMass * mass == 1.0;
    assert t.inverseMass != 0.0;
  }

  /** An immovable particle is reported as having finite mass, and its mass
      is the sentinel. */
  lemma ImmovableHasFiniteMass(s: ParticleState)
    requires s.inverseMass == 0.0
    ensures s.HasFiniteMass() && !s.IsMovable()
    ensures s.Mass() == MAX
  {
  }

  /** Only a negative inverse mass makes `has_finite_mass` false, and such a
      particle is never moved by `integrate`. */
  lemma InfiniteMassIsNegative(s: ParticleState)
    ensures !s.HasFiniteMass() <==> s.inverseMass < 0.0
    ensures !s.HasFiniteMass() ==> !s.IsMovable()
  {
  }

  /** The accumulated force acts exactly like an extra acceleration of
      `forceAccum * inverseMass`: integrating with the force gives the same
      position and velocity as integrating with that acceleration added and
      no force. */
  lemma ForceActsThroughInverseMass(s: ParticleState, duration: Real)
    requires s.IsMovable() && duration > 0.0
    ensures var t := s.(acceleration := Add(s.acceleration, Scale(s.forceAccum, s.inverseMass)),
                        forceAccum := ZERO);
      && Integrated(s, duration).position == Integrated(t, duration).position
      && Integrated(s, duration).velocity == Integrated(t, duration).velocity
  {
  }

  /** Damping is frame-rate independent: for a particle that feels no
      acceleration and no force, two steps of `d1` and `d2` leave the same
      velocity as one step of `d1 + d2`, given that powers of a positive
      base multiply by adding exponents. */
  lemma DampingIsFrameRateIndependent(s: ParticleState, d1: Real, d2: Real)
    requires PowLaw()
    requires s.IsMovable() && d1 > 0.0 && d2 > 0.0
    requires s.damping > 0.0
    requires s.acceleration == ZERO && s.forceAccum == ZERO
    ensures Integrated(Integrated(s, d1), d2).velocity == Integrated(s, d1 + d2).velocity
  {
    var p1 := Pow(s.damping, d1);
    var p2 := Pow(s.damping, d2);
    assert p1 * p2 == Pow(s.damping, d1 + d2);
    var v := s.velocity;
    var s1 := Integrated(s, d1);
    assert s1.velocity == Vec3(v.x * p1, v.y * p1, v.z * p1);
    assert Integrated(s1, d2).velocity == Vec3((v.x * p1) * p2, (v.y * p1) * p2, (v.z * p1) * p2);
    assert (v.x * p1) * p2 == v.x * (p1 * p2);
    assert (v.y * p1) * p2 == v.y * (p1 * p2);
    assert (v.z * p1) * p2 == v.z * (p1 * p2);
  }

  /** The round fired by the ballistic demo: a particle at `(0, 1.5, 0)` with
      velocity `(0, 0, 35)`, acceleration `(0, -1, 0)`, damping `0.99`, mass
      `2` and no accumulated force. One step of `1/60` moves it to
      `(0, 1.5, 35/60)` -- the position moves with the old velocity, so the
      height is unchanged -- and leaves it falling, with its forward speed
      damped by `0.99` raised to `1/60`. */
  lemma FiredRound(s: ParticleState, d: Real)
    requires PowLaw()
    requires s == ParticleState(Vec3(0.0, 1.5, 0.0), Vec3(0.0, 0.0, 35.0), Vec3(0.0, -1.0, 0.0),
                                0.99, 1.0 / 2.0, ZERO)
    requires d == 1.0 / 60.0
    ensures Integrated(s, d).position == Vec3(0.0, 1.5, 35.0 / 60.0)
    ensures Integrated(s, d).velocity.y < 0.0
    ensures Integrated(s, d).velocity.z == 35.0 * Pow(0.99, 1.0 / 60.0)
  {
    var p := Pow(s.damping, d);
    assert 0.0 < p;
    var acc := Add(s.acceleration, Scale(s.forceAccum, s.inverseMass));
    assert acc == Vec3(0.0, -1.0, 0.0);
    var v := Add(s.velocity, Scale(acc, d));
    assert v == Vec3(0.0, -d, 35.0);
    assert Integrated(s, d).velocity == Scale(v, p);
    PositiveProduct(d, p);
  }
}
