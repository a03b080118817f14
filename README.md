# zimur particle core, in Dafny

This project models the particle-physics step of zimur, a small Rust physics
engine. It covers:

- the vector arithmetic (`Vec2` in src/math/vec2.rs and its three-component analogue `Vec3`);
- the point mass `Particle` (src/particle.rs): its mass queries, its force accumulator and its semi-implicit Euler `integrate` step;
- the force generators and the force registry of src/pfgen.rs: gravity, drag, spring, anchored spring and bungee, and `update_forces`.

Layout:

- `precision.dfy` (module `Precision`) declares the scalar `Real`, which is an exact real here. Square root, the run-time reciprocal `1.0 / x`, `powf` and `Real::MAX` are uninterpreted constants. Three laws describe them: `SqrtLaw`, `RecipLaw` and `PowLaw`. They are predicates, and a member that relies on one lists it in its `requires`. Nothing is assumed.
- `vec2.dfy` (module `Vector2`) and `vec3.dfy` (module `Vector3`) hold the vectors.
  - Vectors are `Copy` values, so each is a datatype.
  - The pure operations are functions.
  - Each operation that overwrites `self` is a method. It takes the old value, updates it one component at a time as the source does, and returns the new value. Its `ensures` ties the result to the pure function.
- `particle.dfy` (module `Particles`) models the particle.
  - `Particle` is a class with the source's six fields. `ParticleState` is the value those fields hold at one moment.
  - `Integrate`, `SetMass`, `AddForce` and `ClearAccumulator` each state the new state as a function of the old one.
  - `Integrated` is the specification of one integration step.
- `pfgen.dfy` (module `ForceGenerators`) models the force generators and the registry.
  - Each generator's force is a pure function returning `Option<Vec3>`. `None` means the source returns before calling `add_force`.
  - The five `update_force` bodies are methods that mirror the source step by step, dispatched by `UpdateForce` over the closed datatype `ForceGenerator`.
  - The registry is a class whose `UpdateForces` loop is proved against `ApplyRegistrations`, which applies the registrations in order.
  - The lemma `UpdateForcesAddsTotalForce` states the consequence: after `update_forces`, every particle keeps its motion, and its accumulator has grown by the sum of the forces aimed at it.

Shared particles (`Rc<RefCell<Particle>>`) are modelled as an arena: a sequence of distinct `Particle` objects. A registration, a spring and a bungee name their particles by index in that arena.

Some behaviours of the code differ from what its own comments say. The model follows the code:

- `has_finite_mass` is `inverse_mass >= 0.0` (src/particle.rs:45-47), so it holds for zero inverse mass too.
  - So gravity, whose comment reads "Check that we do not have infinite mass" (src/pfgen.rs:105), does not skip an immovable particle. It adds `gravity * Real::MAX` (`GravityOnImmovableParticle`).
- The comment at src/particle.rs:63 says `integrate` skips things with zero mass. The guard at src/particle.rs:64-66 skips zero (or negative) *inverse* mass, which means infinite mass. A particle of very small mass is integrated.
  - The early return also skips `clear_accumulator`, so an immovable particle keeps its accumulated force.
- The bungee's comment reads "applies a spring force only when extended" (src/pfgen.rs:244). Its body negates a value that already holds `rest - |d|` (src/pfgen.rs:275-279).
  - So when stretched, it pushes the ends apart, where a spring of the same constants pulls them together (`BungeeIsReversedSpring`).

Other behaviours worth knowing:

- `integrate` moves the position with the velocity from before the step (src/particle.rs:71), and only then updates the velocity (src/particle.rs:78).
  - So the fired round of the ballistic demo keeps its height `1.5` after one step of `1/60` (`FiredRound`): gravity shows in the velocity, not yet in the position.

## Model

| member | source | states |
|---|---|---|
| Vector2.MagnitudeSquared | src/math/vec2.rs:39-41 | the squared magnitude is never negative |
| Vector2.Magnitude | src/math/vec2.rs:29-31 | under the square-root law, the magnitude is non-negative and its square is the squared magnitude |
| Vector2.Add | src/math/vec2.rs:168-177 | `ZERO` is the identity of `+` on either side |
| Vector2.Sub | src/math/vec2.rs:186-195 | `a - b` is `ZERO` exactly when `a == b` |
| Vector2.Mul | src/math/vec2.rs:115-147 | the component-wise product with a factor whose components all equal `s` is the uniform scale by `s` |
| Vector2.Scale | src/math/vec2.rs:134-147 | `v * 1` is `v` and `v * 0` is `ZERO` |
| Vector2.ScaleLeft | src/math/vec2.rs:158-166 | `s * v` multiplies every component of `v` by `s` on the left |
| Vector2.Dot | src/math/vec2.rs:98-100 | the dot product of a vector with itself is its squared magnitude |
| Vector2.Normalized | src/math/vec2.rs:55-65 | a vector whose squared magnitude is at most `1e-9` normalizes to `ZERO` |
| Vector2.Normalize | src/math/vec2.rs:76-85 | normalizing in place (scaling by the inverse magnitude, or `clear` below the threshold) leaves `normalized(old self)` |
| Vector2.AddAssign | src/math/vec2.rs:179-184 | `+=` applied component by component equals the `Add` operator |
| Vector2.SubAssign | src/math/vec2.rs:197-202 | `-=` applied component by component equals the `Sub` operator |
| Vector2.MulAssign | src/math/vec2.rs:127-132 | component-wise `*=` equals the component-wise `Mul` operator |
| Vector2.ScaleAssign | src/math/vec2.rs:149-156 | `*= s` equals `v * s` |
| Vector2.Clear | src/math/vec2.rs:102-106 | `clear` yields `(0, 0)` whatever the old value |
| Vector2.Invert | src/math/vec2.rs:108-112 | `invert` yields the additive inverse |
| Vector2.AddScaled | src/math/vec2.rs:87-93 | `add_scaled(other, s)` yields `old + other * s`: the new value minus the old one is `other * s` |
| Vector2.NormalizedIsUnit | src/math/vec2.rs:55-65 | above the threshold, under the square-root and reciprocal laws, `normalized` has squared magnitude exactly 1 |
| Vector2.NormalizedAlignsWithInput | src/math/vec2.rs:55-65 | above the threshold, `normalized(v)` points along `v`: its dot product with `v` is `v`'s magnitude |
| Vector2.ScaleCommutes | src/math/vec2.rs:158-166 | `s * v` equals `v * s`, component by component |
| Vector2.AddThenSub | src/math/vec2.rs:168-195 | `(a + b) - b == a` and `(a - b) + b == a` |
| Vector2.NegatedIsInverse | src/math/vec2.rs:108-112 | the inverted vector sums with the original to zero and equals the original scaled by `-1`; inverting twice is the identity |
| Vector2.SubSwapNegates | src/math/vec2.rs:186-195 | `b - a` is the inverse of `a - b` |
| Vector2.ScaleScale | src/math/vec2.rs:134-147 | scaling by `a` then `b` is scaling by `a * b` |
| Vector2.DotScale | src/math/vec2.rs:95-100 | a scale factor comes out of a dot product |
| Vector3.MagnitudeSquared | src/math/vec2.rs:39-41 | the three-component squared magnitude is never negative |
| Vector3.Magnitude | src/math/vec2.rs:29-31 | under the square-root law, the magnitude is non-negative and its square is the squared magnitude |
| Vector3.Add | src/math/vec2.rs:168-177 | `ZERO` is the identity of `+` on either side |
| Vector3.Sub | src/math/vec2.rs:186-195 | `a - b` is `ZERO` exactly when `a == b` |
| Vector3.Mul | src/math/vec2.rs:115-147 | the component-wise product with a factor whose components all equal `s` is the uniform scale by `s` |
| Vector3.Scale | src/math/vec2.rs:134-147 | `v * 1` is `v` and `v * 0` is `ZERO` |
| Vector3.ScaleLeft | src/math/vec2.rs:158-166 | `s * v` multiplies every component of `v` by `s` on the left |
| Vector3.Dot | src/math/vec2.rs:98-100 | the dot product of a vector with itself is its squared magnitude |
| Vector3.Normalized | src/math/vec2.rs:55-65 | a vector whose squared magnitude is at most `1e-9` normalizes to `ZERO` |
| Vector3.Normalize | src/math/vec2.rs:76-85 | normalizing in place leaves `normalized(old self)` |
| Vector3.AddAssign | src/math/vec2.rs:179-184 | `+=` applied component by component equals `Add` |
| Vector3.SubAssign | src/math/vec2.rs:197-202 | `-=` applied component by component equals `Sub` |
| Vector3.MulAssign | src/math/vec2.rs:127-132 | component-wise `*=` equals component-wise `Mul` |
| Vector3.ScaleAssign | src/math/vec2.rs:149-156 | `*= s` equals `v * s` |
| Vector3.Clear | src/math/vec2.rs:102-106 | `clear` yields `(0, 0, 0)` |
| Vector3.Invert | src/math/vec2.rs:108-112 | `invert` yields the additive inverse |
| Vector3.AddScaled | src/math/vec2.rs:87-93 | `add_scaled(other, s)` yields `old + other * s` |
| Vector3.NormalizedIsUnit | src/math/vec2.rs:55-65 | above the threshold, under the square-root and reciprocal laws, `normalized` has squared magnitude exactly 1 |
| Vector3.NormalizedAlignsWithInput | src/math/vec2.rs:55-65 | above the threshold, `normalized(v)` points along `v` |
| Vector3.ScaleCommutes | src/math/vec2.rs:158-166 | `s * v` equals `v * s` |
| Vector3.AddThenSub | src/math/vec2.rs:168-195 | `(a + b) - b == a` and `(a - b) + b == a` |
| Vector3.NegatedIsInverse | src/math/vec2.rs:108-112 | the inverted vector sums with the original to zero and equals it scaled by `-1`; inverting twice is the identity |
| Vector3.SubSwapNegates | src/math/vec2.rs:186-195 | `b - a` is the inverse of `a - b` |
| Vector3.NegationKeepsMagnitude | src/math/vec2.rs:29-41 | inverting keeps the squared magnitude and the magnitude |
| Vector3.NormalizedOfNegation | src/math/vec2.rs:55-65 | normalizing the inverse gives the inverse of the normalized vector, on both sides of the threshold |
| Vector3.ScaleNegationCommutes | src/math/vec2.rs:108-147 | inverting then scaling equals scaling then inverting |
| Vector3.ScaleNegatedFactor | src/math/vec2.rs:134-147 | scaling by `-k` gives the inverse of scaling by `k` |
| Vector3.ScaleScale | src/math/vec2.rs:134-147 | scaling by `a` then `b` is scaling by `a * b` |
| Vector3.ScaleZero | src/math/vec2.rs:134-147 | scaling `ZERO`, or scaling by zero, gives `ZERO` |
| Vector3.AddAssociates | src/math/vec2.rs:168-177 | vector addition is associative |
| Vector3.DotScale | src/math/vec2.rs:95-100 | a scale factor comes out of a dot product |
| Particles.ParticleState.HasFiniteMass | src/particle.rs:45-47 | `has_finite_mass` holds exactly for a movable particle and for one with zero inverse mass |
| Particles.ParticleState.Mass | src/particle.rs:54-60 | zero inverse mass gives the `MAX` sentinel; otherwise the mass times the inverse mass is 1 |
| Particles.Integrated | src/particle.rs:62-85 | an immovable particle is left exactly as it was; a movable one moves by old velocity times duration, keeps acceleration, damping and inverse mass, and ends with a zero accumulator |
| Particles.Particle.constructor | src/particle.rs:34-43 | `new` gives zero vectors, zero damping and zero inverse mass: an immovable particle of mass `MAX` |
| Particles.Particle.SetMass | src/particle.rs:49-52 | for a positive mass, only the inverse mass changes, to `1 / mass`; `mass()` then returns that mass and the particle is movable |
| Particles.Particle.Integrate | src/particle.rs:62-85 | the step-by-step update leaves exactly the state `Integrated` describes |
| Particles.Particle.ClearAccumulator | src/particle.rs:87-89 | only the force accumulator changes, to zero |
| Particles.Particle.AddForce | src/particle.rs:91-93 | only the force accumulator changes, to old accumulator plus the force |
| Particles.MassOfReciprocal | src/particle.rs:49-60 | setting a positive mass and reading `mass()` gives that mass back |
| Particles.ImmovableHasFiniteMass | src/particle.rs:45-60 | zero inverse mass counts as finite mass, is not moved by `integrate`, and reads back as `MAX` |
| Particles.InfiniteMassIsNegative | src/particle.rs:45-47 | `has_finite_mass` is false exactly for a negative inverse mass, and such a particle is never integrated |
| Particles.ForceActsThroughInverseMass | src/particle.rs:73-78 | the accumulated force acts exactly as an extra acceleration of `force_accum * inverse_mass` |
| Particles.DampingIsFrameRateIndependent | src/particle.rs:80-81 | given the power law, two steps of `d1` and `d2` damp the velocity as one step of `d1 + d2` does |
| Particles.FiredRound | src/particle.rs:62-85 | the demo's fired round, after one step of `1/60`, is at `(0, 1.5, 35/60)`, falling, with forward speed `35 * 0.99^(1/60)` |
| ForceGenerators.GravityForce | src/pfgen.rs:104-112 | gravity acts exactly when `has_finite_mass` holds |
| ForceGenerators.DragCoefficientNonNegative | src/pfgen.rs:154-155 | `k1 * speed + k2 * speed^2` is non-negative for non-negative coefficients and speed |
| ForceGenerators.DragForce | src/pfgen.rs:145-162 | drag acts exactly when the speed is positive |
| ForceGenerators.SpringForce | src/pfgen.rs:184-201 | the spring acts exactly when the separation has positive magnitude |
| ForceGenerators.AnchoredSpringForce | src/pfgen.rs:225-241 | the anchored spring acts exactly when the particle is off the anchor |
| ForceGenerators.BungeeForce | src/pfgen.rs:264-281 | the bungee acts exactly when stretched beyond its rest length |
| ForceGenerators.UpdateForce | src/pfgen.rs:65-67 | dispatching `update_force` changes the particle only by adding the force its generator computes on the state before the call |
| ForceGenerators.UpdateGravity | src/pfgen.rs:104-112 | the method adds `gravity * mass` when the mass is finite, and otherwise leaves the particle unchanged |
| ForceGenerators.UpdateDrag | src/pfgen.rs:145-162 | the method leaves the particle unchanged at zero speed, and otherwise adds `normalized(v) * -(k1 * s + k2 * s^2)` |
| ForceGenerators.UpdateSpring | src/pfgen.rs:185-201 | the method leaves the particle unchanged when the ends coincide, and otherwise adds `normalized(d) * -((abs d - rest) * k)` |
| ForceGenerators.UpdateAnchoredSpring | src/pfgen.rs:226-241 | the method leaves the particle unchanged on the anchor, and otherwise adds `normalized(d) * k * (rest - abs d)` |
| ForceGenerators.UpdateBungee | src/pfgen.rs:265-281 | the method leaves the particle unchanged while slack, and otherwise adds `normalized(d) * -(k * (rest - abs d))` |
| ForceGenerators.ApplyRegistrations | src/pfgen.rs:61-69 | applying the registrations first to last, each as one generator's `add_force` on its own particle, keeps the arena's size |
| ForceGenerators.ParticleForceRegistry.constructor | src/pfgen.rs:38-41 | the registry holds the given registrations, in order |
| ForceGenerators.ParticleForceRegistry.UpdateForces | src/pfgen.rs:61-69 | the loop runs each registration's generator once, in order, on that registration's particle: the arena ends as `ApplyRegistrations` of its old states |
| ForceGenerators.ForceChangesOnlyAccumulator | src/particle.rs:91-93 | a generator changes nothing but the accumulator, which grows by exactly the force added |
| ForceGenerators.ForceIgnoresAccumulators | src/pfgen.rs:104-281 | no generator reads a force accumulator, so a force does not depend on forces added earlier in the frame |
| ForceGenerators.UpdateForcesAddsTotalForce | src/pfgen.rs:61-69 | after `update_forces` every particle keeps its motion, and its accumulator has grown by the sum of the forces aimed at it, each computed on the arena before the loop |
| ForceGenerators.SpringObeysThirdLaw | src/pfgen.rs:184-201 | a spring acts on one end exactly when it acts on the other, with the opposite force |
| ForceGenerators.SpringBelowThreshold | src/pfgen.rs:189-200 | ends closer than the `normalize` threshold but not coinciding still get `add_force`, with a zero force |
| ForceGenerators.AnchoredSpringIsSpringToAnchor | src/pfgen.rs:226-241 | the anchored spring adds what a two-particle spring adds for a partner at the anchor |
| ForceGenerators.AnchoredSpringAtRestLength | src/pfgen.rs:235-240 | at its rest length the anchored spring adds a zero force |
| ForceGenerators.BungeeIsReversedSpring | src/pfgen.rs:265-281 | a stretched bungee adds the opposite of what the spring of the same constants adds |
| ForceGenerators.GravityGivesItsAcceleration | src/pfgen.rs:104-112 | for a movable particle, gravity's force divided by the mass is the gravity vector |
| ForceGenerators.GravityOnMassTwo | src/pfgen.rs:104-112 | mass 2 under gravity `(0, -10, 0)` gets force `(0, -20, 0)` |
| ForceGenerators.GravityOnImmovableParticle | src/pfgen.rs:105-111 | an immovable particle passes the finite-mass test and gets `gravity * MAX` |
| ForceGenerators.DragAtRest | src/pfgen.rs:149-152 | a particle at rest feels no drag |
| ForceGenerators.DragOpposesMotion | src/pfgen.rs:145-162 | with non-negative coefficients, drag never has a component along the velocity |
| ForceGenerators.SpringExample | src/pfgen.rs:185-201 | ends two apart on a spring of rest length 1 and constant 5 pull with force `(-5, 0, 0)` |

## Left out

- src/math/vec3.rs is not part of this model. `Vec3` is modelled as the three-component analogue of `Vec2`, with the same operations. Any `Vec3` operation that `Vec2` lacks (such as the basis construction that src/math/mod.rs refers to) is not modelled.
- IEEE-754 `f32` behaviour is not modelled: rounding, overflow, NaN and infinities. `Real` is the mathematical reals, and `EPSILON` is exactly `10^-9` rather than the nearest `f32`.
- `sqrt`, `powf`, the run-time reciprocal `1.0 / x` in `normalized`/`normalize`, and `Real::MAX` are uninterpreted.
  - `RecipLaw` fixes the reciprocal to the exact quotient for non-zero arguments. At zero it is left open, where IEEE would give infinity; `normalized` never divides there.
  - Divisions whose divisor is known to be non-zero (`set_mass`, `mass`) use exact division directly.
- The `assert!` panics become preconditions rather than modelled panics: `assert!(mass > 0.0)` (src/particle.rs:50) is the `requires` of `SetMass`, and `assert!(duration > 0.0)` (src/particle.rs:68) is the `requires` of `Integrate` and `Integrated`, on the movable path only, where the source reaches it.
- Particles.ParticleState.Mass: states that `inverse_mass == 0` gives `MAX`, but not the converse, because `MAX` is uninterpreted and could equal `1 / inverse_mass` for some real inverse mass.
- Vector2.NormalizedIsUnit: holds only under `SqrtLaw` and `RecipLaw`, because the square root and the reciprocal are abstract. The same goes for `Vector3.NormalizedIsUnit` and both `NormalizedAlignsWithInput` lemmas.
- Particles.DampingIsFrameRateIndependent: holds only under `PowLaw`, because `powf` is abstract.
- `ParticleForceRegistry::add`, `remove` and `clear` are `todo!()` in the source and have no behaviour to model. A registry is built from its sequence of registrations instead.
- `ParticleBuoyancy` is an empty struct with no force generator, so it is not modelled.
- `Rc<RefCell<_>>` sharing and runtime borrow checking are not modelled.
  - Particles live in an arena of distinct objects, named by index.
  - A spring or bungee whose other end is its own particle would panic on `borrow()`. It is excluded by a precondition (`WellFormed`) rather than modelled as a panic.
  - The anchored spring's anchor cell is read as a plain `Vec3` value. Changes to the shared anchor between frames are not modelled.
- The `duration` argument of `update_force` is passed through but ignored, as every generator in the source ignores it.
- `Vec2::new` is the datatype constructor itself. The `Debug` derives are not modelled.
- src/ballistic.rs (a rendering demo), src/timing.rs (wall-clock timing), src/mywgpu/vertex.rs (GPU vertex layout) and the commented-out parts of src/math/precision.rs are not part of this model.
- src/particle.rs uses members that exist only in the commented-out `Real` newtype of src/math/precision.rs:3-15: `Real(0.0)` and `Real(1.0)` (src/particle.rs:39-40, 51, 58) and `self.damping.pow(duration)` (src/particle.rs:81). With `pub type Real = f32` (src/math/precision.rs:1) the file does not compile as it stands.
  - The model reads `pow` as `powf` and every comparison as exact.
  - The newtype's commented-out `PartialEq` and `PartialOrd` (src/math/precision.rs:26-63) would compare within a tolerance of `1e-6`. That would move the guards `inverse_mass == 0.0` in `mass`, `<= 0.0` in `integrate` and `>= 0.0` in `has_finite_mass`; this tolerance is not modelled. `FiredRound` restates the demo's firing parameters as a particle state.
