/** The two-dimensional vector of src/math/vec2.rs.
    `Vec2` is a `Copy` struct, so it is a datatype here. The pure operations
    (`magnitude`, `normalized`, `dot` and the `Add`/`Sub`/`Mul` operators)
    are functions; the operations that overwrite `self` (`normalize`,
    `add_scaled`, `clear`, `invert` and the `*Assign` operators) are methods
    that take the old value and return the value `self` holds afterwards,
    updating it one component at a time as the source does. */
module Vector2 {
  import opened Precision

  datatype Vec2 = Vec2(x: Real, y: Real)

  /** `Vec2::ZERO`. */
  const ZERO: Vec2 := Vec2(0.0, 0.0)

  // --- Pure operations ---

  /** `magnitude_squared`: `x^2 + y^2`. */
  function MagnitudeSquared(v: Vec2): (r: Real)
    ensures 0.0 <= r
  {
    SumOfSquaresPositive(v.x, v.y);
    v.x * v.x + v.y * v.y
  }

  /** `magnitude`: the square root of the squared magnitude. Under the
      square-root law it is the non-negative length whose square is the
      squared magnitude. */
  function Magnitude(v: Vec2): (r: Real)
    ensures SqrtLaw() ==> 0.0 <= r && r * r == MagnitudeSquared(v)
  {
    Sqrt(MagnitudeSquared(v))
  }

  /** `dot`: the sum of the products of corresponding components. */
  function Dot(a: Vec2, b: Vec2): (r: Real)
    ensures a == b ==> r == MagnitudeSquared(a)
  {
    a.x * b.x + a.y * b.y
  }

  /** The additive inverse, which `invert` computes in place. */
  function Negated(v: Vec2): Vec2
  {
    Vec2(-v.x, -v.y)
  }

  /** `Add`: `ZERO` is the identity on either side. */
  function Add(a: Vec2, b: Vec2): (r: Vec2)
    ensures b == ZERO ==> r == a
    ensures a == ZERO ==> r == b
  {
    Vec2(a.x + b.x, a.y + b.y)
  }

  /** `Sub`: the difference vanishes exactly when the operands are equal. */
  function Sub(a: Vec2, b: Vec2): (r: Vec2)
    ensures r == ZERO <==> a == b
  {
    Vec2(a.x - b.x, a.y - b.y)
  }

  /** `Mul<Vec2>`: component-wise product. A factor whose components are
      all equal acts as the uniform scale by that value. */
  function Mul(a: Vec2, b: Vec2): (r: Vec2)
    ensures b.x == b.y ==> r == Scale(a, b.x)
  {
    Vec2(a.x * b.x, a.y * b.y)
  }

  /** `Mul<T: Into<Real>>`: `v * s`, a uniform scale. Scaling by one is the
      identity and scaling by zero gives `ZERO`. */
  function Scale(v: Vec2, s: Real): (r: Vec2)
    ensures s == 1.0 ==> r == v
    ensures s == 0.0 ==> r == ZERO
  {
    Vec2(v.x * s, v.y * s)
  }

  /** `Mul<Vec2> for Real`: `s * v`, which the source computes as `v * s`. */
  function ScaleLeft(s: Real, v: Vec2): (r: Vec2)
    ensures r == Vec2(s * v.x, s * v.y)
  {
    Scale(v, s)
  }

  /** `normalized`: the unit vector in the direction of `v`, or `ZERO` when
      the squared magnitude does not exceed `EPSILON`. */
  function Normalized(v: Vec2): (r: Vec2)
    ensures MagnitudeSquared(v) <= EPSILON ==> r == ZERO
  {
    var magSq := MagnitudeSquared(v);
    if magSq > EPSILON then
      var invMag := Recip(Sqrt(magSq));
      Scale(v, invMag)
    else
      ZERO
  }

  // --- In-place operations: each returns the new value of `self` ---

  /** `add_assign`: `self.x += rhs.x; self.y += rhs.y`. */
  method AddAssign(self: Vec2, rhs: Vec2) returns (r: Vec2)
    ensures r == Add(self, rhs)
  {
    r := self;
    r := r.(x := r.x + rhs.x);
    r := r.(y := r.y + rhs.y);
  }

  /** `sub_assign`: `self.x -= rhs.x; self.y -= rhs.y`. */
  method SubAssign(self: Vec2, rhs: Vec2) returns (r: Vec2)
    ensures r == Sub(self, rhs)
  {
    r := self;
    r := r.(x := r.x - rhs.x);
    r := r.(y := r.y - rhs.y);
  }

  /** `MulAssign<Vec2>`: `self.x *= rhs.x; self.y *= rhs.y`. */
  method MulAssign(self: Vec2, rhs: Vec2) returns (r: Vec2)
    ensures r == Mul(self, rhs)
  {
    r := self;
    r := r.(x := r.x * rhs.x);
    r := r.(y := r.y * rhs.y);
  }

  /** `MulAssign<T: Into<Real>>`: `*self = *self * rhs`. */
  method ScaleAssign(self: Vec2, s: Real) returns (r: Vec2)
    ensures r == Scale(self, s)
  {
    r := Scale(self, s);
  }

  /** `clear`: zero both components. */
  method Clear(self: Vec2) returns (r: Vec2)
    ensures r == ZERO
  {
    r := self;
    r := r.(x := 0.0);
    r := r.(y := 0.0);
  }

  /** `invert`: negate both components, so the result is the additive inverse. */
  method Invert(self: Vec2) returns (r: Vec2)
    ensures r == Negated(self)
  {
    r := self;
    r := r.(x := -r.x);
    r := r.(y := -r.y);
  }

  /** `add_scaled`: `*self += other * scale`. */
  method AddScaled(self: Vec2, other: Vec2, scale: Real) returns (r: Vec2)
    ensures r == Add(self, Scale(other, scale))
    ensures Sub(r, self) == Scale(other, scale)
  {
    var scaled := ScaleAssign(other, scale);
    r := AddAssign(self, scaled);
  }

  /** `normalize`: `self` becomes `normalized(self)`; when the squared
      magnitude is at most `EPSILON` the source calls `clear` instead. */
  method Normalize(self: Vec2) returns (r: Vec2)
    ensures r == Normalized(self)
  {
    var magSq := MagnitudeSquared(self);
    if magSq > EPSILON {
      var invMag := Recip(Sqrt(magSq));
      r := ScaleAssign(self, invMag);
    } else {
      r := Clear(self);
    }
  }

  // --- Properties ---

  /** A normalized vector has unit length unless the input was (nearly) zero. */
  lemma NormalizedIsUnit(v: Vec2)
    requires SqrtLaw() && RecipLaw()
    requires EPSILON < MagnitudeSquared(v)
    ensures MagnitudeSquared(Normalized(v)) == 1.0
  {
    var m := MagnitudeSquared(v);
    var s := Sqrt(m);
    SqrtPositive(m);
    var k := Recip(s);
    assert s * k == 1.0;
    assert Normalized(v) == Vec2(v.x * k, v.y * k);
    calc {
      MagnitudeSquared(Normalized(v));
      (v.x * k) * (v.x * k) + (v.y * k) * (v.y * k);
      { assert (v.x * k) * (v.x * k) == (v.x * v.x) * (k * k);
        assert (v.y * k) * (v.y * k) == (v.y * v.y) * (k * k); }
      m * (k * k);
      { assert m == s * s; }
      (s * s) * (k * k);
      { assert (s * s) * (k * k) == (s * k) * (s * k); }
      (s * k) * (s * k);
      1.0;
    }
  }

  /** The normalized vector points the same way as `v`: its projection on
      `v` is the length of `v`. */
  lemma NormalizedAlignsWithInput(v: Vec2)
    requires SqrtLaw() && RecipLaw()
    requires EPSILON < MagnitudeSquared(v)
    ensures Dot(Normalized(v), v) == Magnitude(v)
  {
    var m := MagnitudeSquared(v);
    var s := Sqrt(m);
    SqrtPositive(m);
    var k := Recip(s);
    assert s * k == 1.0;
    assert Normalized(v) == Vec2(v.x * k, v.y * k);
    calc {
      Dot(Normalized(v), v);
      (v.x * k) * v.x + (v.y * k) * v.y;
      { assert (v.x * k) * v.x == (v.x * v.x) * k;
        assert (v.y * k) * v.y == (v.y * v.y) * k; }
      m * k;
      { assert m == s * s; }
      (s * s) * k;
      { assert (s * s) * k == s * (s * k); }
      s;
    }
  }

  /** Scalar multiplication commutes: `s * v == v * s`. */
  lemma ScaleCommutes(s: Real, v: Vec2)
    ensures ScaleLeft(s, v) == Scale(v, s)
    ensures ScaleLeft(s, v) == Vec2(s * v.x, s * v.y)
  {
  }

  /** Subtracting what was added gives back the original vector. */
  lemma AddThenSub(a: Vec2, b: Vec2)
    ensures Sub(Add(a, b), b) == a
    ensures Add(Sub(a, b), b) == a
  {
  }

  /** Inverting gives the additive inverse, which is the vector scaled by
      `-1`, and inverting twice is the identity. */
  lemma NegatedIsInverse(v: Vec2)
    ensures Add(v, Negated(v)) == ZERO
    ensures Negated(v) == Scale(v, -1.0)
    ensures Negated(Negated(v)) == v
  {
  }

  /** Swapping the operands of a subtraction negates the result. */
  lemma SubSwapNegates(a: Vec2, b: Vec2)
    ensures Sub(b, a) == Negated(Sub(a, b))
  {
  }

  /** Scaling twice is scaling once by the product. */
  lemma ScaleScale(v: Vec2, a: Real, b: Real)
    ensures Scale(Scale(v, a), b) == Scale(v, a * b)
  {
    assert (v.x * a) * b == v.x * (a * b);
    assert (v.y * a) * b == v.y * (a * b);
  }

  /** A scale factor can be taken out of a dot product. */
  lemma DotScale(a: Vec2, s: Real, b: Vec2)
    ensures Dot(Scale(a, s), b) == s * Dot(a, b)
  {
    assert (a.x * s) * b.x == s * (a.x * b.x);
    assert (a.y * s) * b.y == s * (a.y * b.y);
  }
}
