/** The three-dimensional vector `Vec3` used by the particle core. Its
    source file is not part of this model; it has the same interface as
    `Vec2` in src/math/vec2.rs and is modelled as that type's
    three-component analogue.
    `Vec3` is a `Copy` struct, so it is a datatype here. The pure operations
    (`magnitude`, `normalized`, `dot` and the `Add`/`Sub`/`Mul` operators)
    are functions; the operations that overwrite `self` (`normalize`,
    `add_scaled`, `clear`, `invert` and the `*Assign` operators) are methods
    that take the old value and return the value `self` holds afterwards,
    updating it one component at a time as the source does. */
module Vector3 {
  import opened Precision

  datatype Vec3 = Vec3(x: Real, y: Real, z: Real)

  /** `Vec3::ZERO`. */
  const ZERO: Vec3 := Vec3(0.0, 0.0, 0.0)

  // --- Pure operations ---

  /** `magnitude_squared`: `x^2 + y^2 + z^2`. */
  function MagnitudeSquared(v: Vec3): (r: Real)
    ensures 0.0 <= r
  {
    SquareNonNegative(v.x);
    SquareNonNegative(v.y);
    SquareNonNegative(v.z);
    v.x * v.x + v.y * v.y + v.z * v.z
  }

  /** `magnitude`: the square root of the squared magnitude. Under the
      square-root law it is the non-negative length whose square is the
      squared magnitude. */
  function Magnitude(v: Vec3): (r: Real)
    ensures SqrtLaw() ==> 0.0 <= r && r * r == MagnitudeSquared(v)
  {
    Sqrt(MagnitudeSquared(v))
  }

  /** `dot`: the sum of the products of corresponding components. */
  function Dot(a: Vec3, b: Vec3): (r: Real)
    ensures a == b ==> r == MagnitudeSquared(a)
  {
    a.x * b.x + a.y * b.y + a.z * b.z
  }

  /** The additive inverse, which `invert` computes in place. */
  function Negated(v: Vec3): Vec3
  {
    Vec3(-v.x, -v.y, -v.z)
  }

  /** `Add`: `ZERO` is the identity on either side. */
  function Add(a: Vec3, b: Vec3): (r: Vec3)
    ensures b == ZERO ==> r == a
    ensures a == ZERO ==> r == b
  {
    Vec3(a.x + b.x, a.y + b.y, a.z + b.z)
  }

  /** `Sub`: the difference vanishes exactly when the operands are equal. */
  function Sub(a: Vec3, b: Vec3): (r: Vec3)
    ensures r == ZERO <==> a == b
  {
    Vec3(a.x - b.x, a.y - b.y, a.z - b.z)
  }

  /** `Mul<Vec3>`: component-wise product. A factor whose components are
      all equal acts as the uniform scale by that value. */
  function Mul(a: Vec3, b: Vec3): (r: Vec3)
    ensures b.x == b.y == b.z ==> r == Scale(a, b.x)
  {
    Vec3(a.x * b.x, a.y * b.y, a.z * b.z)
  }

  /** `Mul<T: Into<Real>>`: `v * s`, a uniform scale. Scaling by one is the
      identity and scaling by zero gives `ZERO`. */
  function Scale(v: Vec3, s: Real): (r: Vec3)
    ensures s == 1.0 ==> r == v
    ensures s == 0.0 ==> r == ZERO
  {
    Vec3(v.x * s, v.y * s, v.z * s)
  }

  /** `Mul<Vec3> for Real`: `s * v`, which the source computes as `v * s`. */
  function ScaleLeft(s: Real, v: Vec3): (r: Vec3)
    ensures r == Vec3(s * v.x, s * v.y, s * v.z)
  {
    Scale(v, s)
  }

  /** `normalized`: the unit vector in the direction of `v`, or `ZERO` when
      the squared magnitude does not exceed `EPSILON`. */
  function Normalized(v: Vec3): (r: Vec3)
    ensures MagnitudeSquared(v) <= EPSILON ==> r == ZERO
  {
    var magSq := MagnitudeSquared(v);
    if magSq > EPSILON then
      var invMag := Recip(Sqrt(magSq));
      Scale(v, invMag)
    else
      ZERO
  }

  // --- In-place operations: each returns the new value of `self` ---

  /** `add_assign`: component-wise `+=`. */
  method AddAssign(self: Vec3, rhs: Vec3) returns (r: Vec3)
    ensures r == Add(self, rhs)
  {
    r := self;
    r := r.(x := r.x + rhs.x);
    r := r.(y := r.y + rhs.y);
    r := r.(z := r.z + rhs.z);
  }

  /** `sub_assign`: component-wise `-=`. */
  method SubAssign(self: Vec3, rhs: Vec3) returns (r: Vec3)
    ensures r == Sub(self, rhs)
  {
    r := self;
    r := r.(x := r.x - rhs.x);
    r := r.(y := r.y - rhs.y);
    r := r.(z := r.z - rhs.z);
  }

  /** `MulAssign<Vec3>`: component-wise `*=`. */
  method MulAssign(self: Vec3, rhs: Vec3) returns (r: Vec3)
    ensures r == Mul(self, rhs)
  {
    r := self;
    r := r.(x := r.x * rhs.x);
    r := r.(y := r.y * rhs.y);
    r := r.(z := r.z * rhs.z);
  }

  /** `MulAssign<T: Into<Real>>`: `*self = *self * rhs`. */
  method ScaleAssign(self: Vec3, s: Real) returns (r: Vec3)
    ensures r == Scale(self, s)
  {
    r := Scale(self, s);
  }

  /** `clear`: zero every component. */
  method Clear(self: Vec3) returns (r: Vec3)
    ensures r == ZERO
  {
    r := self;
    r := r.(x := 0.0);
    r := r.(y := 0.0);
    r := r.(z := 0.0);
  }

  /** `invert`: negate every component, so the result is the additive inverse. */
  method Invert(self: Vec3) returns (r: Vec3)
    ensures r == Negated(self)
  {
    r := self;
    r := r.(x := -r.x);
    r := r.(y := -r.y);
    r := r.(z := -r.z);
  }

  /** `add_scaled`: `*self += other * scale`. */
  method AddScaled(self: Vec3, other: Vec3, scale: Real) returns (r: Vec3)
    ensures r == Add(self, Scale(other, scale))
    ensures Sub(r, self) == Scale(other, scale)
  {
    var scaled := ScaleAssign(other, scale);
    r := AddAssign(self, scaled);
  }

  /** `normalize`: `self` becomes `normalized(self)`; when the squared
      magnitude is at most `EPSILON` the source calls `clear` instead. */
  method Normalize(self: Vec3) returns (r: Vec3)
    ensures r == Normalized(self)
  {
    var magSq := MagnitudeSquared(self);
    if magSq > EPSILON {
      var invMag := Recip(Sqrt(magSq));
      r := ScaleAssign(self, invMag);
    } else {
      r := Clear(self);
    }
  }

  // --- Properties ---

  /** A normalized vector has unit length unless the input was (nearly) zero. */
  lemma NormalizedIsUnit(v: Vec3)
    requires SqrtLaw() && RecipLaw()
    requires EPSILON < MagnitudeSquared(v)
    ensures MagnitudeSquared(Normalized(v)) == 1.0
  {
    var m := MagnitudeSquared(v);
    var s := Sqrt(m);
    SqrtPositive(m);
    var k := Recip(s);
    assert s * k == 1.0;
    assert Normalized(v) == Vec3(v.x * k, v.y * k, v.z * k);
    calc {
      MagnitudeSquared(Normalized(v));
      (v.x * k) * (v.x * k) + (v.y * k) * (v.y * k) + (v.z * k) * (v.z * k);
      { assert (v.x * k) * (v.x * k) == (v.x * v.x) * (k * k);
        assert (v.y * k) * (v.y * k) == (v.y * v.y) * (k * k);
        assert (v.z * k) * (v.z * k) == (v.z * v.z) * (k * k); }
      m * (k * k);
      { assert m == s * s; }
      (s * s) * (k * k);
      { assert (s * s) * (k * k) == (s * k) * (s * k); }
      (s * k) * (s * k);
      1.0;
    }
  }

  /** The normalized vector points the same way as `v`: its projection on
      `v` is the length of `v`. */
  lemma NormalizedAlignsWithInput(v: Vec3)
    requires SqrtLaw() && RecipLaw()
    requires EPSILON < MagnitudeSquared(v)
    ensures Dot(Normalized(v), v) == Magnitude(v)
  {
    var m := MagnitudeSquared(v);
    var s := Sqrt(m);
    SqrtPositive(m);
    var k := Recip(s);
    assert s * k == 1.0;
    assert Normalized(v) == Vec3(v.x * k, v.y * k, v.z * k);
    calc {
      Dot(Normalized(v), v);
      (v.x * k) * v.x + (v.y * k) * v.y + (v.z * k) * v.z;
      { assert (v.x * k) * v.x == (v.x * v.x) * k;
        assert (v.y * k) * v.y == (v.y * v.y) * k;
        assert (v.z * k) * v.z == (v.z * v.z) * k; }
      m * k;
      { assert m == s * s; }
      (s * s) * k;
      { assert (s * s) * k == s * (s * k); }
      s;
    }
  }

  /** Above the threshold, `normalized` scales by the reciprocal of the
      magnitude. */
  lemma NormalizedFormula(v: Vec3)
    requires EPSILON < MagnitudeSquared(v)
    ensures Normalized(v) == Scale(v, Recip(Magnitude(v)))
  {
  }

  /** Scalar multiplication commutes: `s * v == v * s`. */
  lemma ScaleCommutes(s: Real, v: Vec3)
    ensures ScaleLeft(s, v) == Scale(v, s)
    ensures ScaleLeft(s, v) == Vec3(s * v.x, s * v.y, s * v.z)
  {
  }

  /** Subtracting what was added gives back the original vector. */
  lemma AddThenSub(a: Vec3, b: Vec3)
    ensures Sub(Add(a, b), b) == a
    ensures Add(Sub(a, b), b) == a
  {
  }

  /** Inverting gives the additive inverse, which is the vector scaled by
      `-1`, and inverting twice is the identity. */
  lemma NegatedIsInverse(v: Vec3)
    ensures Add(v, Negated(v)) == ZERO
    ensures Negated(v) == Scale(v, -1.0)
    ensures Negated(Negated(v)) == v
  {
  }

  /** The zero vector is its own inverse. */
  lemma NegatedZero()
    ensures Negated(ZERO) == ZERO
  {
  }

  /** Swapping the operands of a subtraction negates the result. */
  lemma SubSwapNegates(a: Vec3, b: Vec3)
    ensures Sub(b, a) == Negated(Sub(a, b))
  {
  }

  /** Negating a vector keeps its length. */
  lemma NegationKeepsMagnitude(v: Vec3)
    ensures MagnitudeSquared(Negated(v)) == MagnitudeSquared(v)
    ensures Magnitude(Negated(v)) == Magnitude(v)
  {
    var w := Negated(v);
    assert w.x * w.x == v.x * v.x;
    assert w.y * w.y == v.y * v.y;
    assert w.z * w.z == v.z * v.z;
  }

  /** Negating a vector negates its direction. */
  lemma NormalizedOfNegation(v: Vec3)
    ensures Normalized(Negated(v)) == Negated(Normalized(v))
  {
    if EPSILON < MagnitudeSquared(v) {
      NormalizedOfLongNegation(v);
    } else {
      NormalizedOfShortNegation(v);
      NegatedZero();
    }
  }

  /** Below the threshold both `v` and its negation normalize to zero. */
  lemma NormalizedOfShortNegation(v: Vec3)
    requires MagnitudeSquared(v) <= EPSILON
    ensures Normalized(v) == ZERO && Normalized(Negated(v)) == ZERO
  {
    NegationKeepsMagnitude(v);
  }

  /** The case of `NormalizedOfNegation` above the threshold. */
  lemma NormalizedOfLongNegation(v: Vec3)
    requires EPSILON < MagnitudeSquared(v)
    ensures Normalized(Negated(v)) == Negated(Normalized(v))
  {
    NegationKeepsMagnitude(v);
    NormalizedFormula(v);
    NormalizedFormula(Negated(v));
    ScaleNegationCommutes(v, Recip(Magnitude(v)));
  }

  /** Negating and scaling can be done in either order. */
  lemma ScaleNegationCommutes(v: Vec3, k: Real)
    ensures Scale(Negated(v), k) == Negated(Scale(v, k))
  {
    assert (-v.x) * k == -(v.x * k);
    assert (-v.y) * k == -(v.y * k);
    assert (-v.z) * k == -(v.z * k);
  }

  /** Scaling by the opposite factor gives the opposite vector. */
  lemma ScaleNegatedFactor(v: Vec3, k: Real)
    ensures Scale(v, -k) == Negated(Scale(v, k))
  {
    assert v.x * -k == -(v.x * k);
    assert v.y * -k == -(v.y * k);
    assert v.z * -k == -(v.z * k);
  }

  /** Scaling twice is scaling once by the product. */
  lemma ScaleScale(v: Vec3, a: Real, b: Real)
    ensures Scale(Scale(v, a), b) == Scale(v, a * b)
  {
    assert (v.x * a) * b == v.x * (a * b);
    assert (v.y * a) * b == v.y * (a * b);
    assert (v.z * a) * b == v.z * (a * b);
  }

  /** Scaling the zero vector gives the zero vector, as does scaling by zero. */
  lemma ScaleZero(v: Vec3, s: Real)
    ensures Scale(ZERO, s) == ZERO
    ensures Scale(v, 0.0) == ZERO
  {
  }

  /** Addition is associative. */
  lemma AddAssociates(a: Vec3, b: Vec3, c: Vec3)
    ensures Add(Add(a, b), c) == Add(a, Add(b, c))
  {
  }

  /** A scale factor can be taken out of a dot product. */
  lemma DotScale(a: Vec3, s: Real, b: Vec3)
    ensures Dot(Scale(a, s), b) == s * Dot(a, b)
  {
    assert (a.x * s) * b.x == s * (a.x * b.x);
    assert (a.y * s) * b.y == s * (a.y * b.y);
    assert (a.z * s) * b.z == s * (a.z * b.z);
  }
}
