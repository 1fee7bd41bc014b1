// The world system's collision velocity formula (whose only call site is
// commented out), a two-body example on which it loses kinetic energy, and the
// dot-product response it evidently stands for, which conserves momentum and
// energy.

module Impulse {
  import opened Components

  /** The physics component: a mass and a gravity flag. */
  datatype Physics = Physics(mass: real, affectedByGravity: bool)

  /** Twice the kinetic energy of a body. */
  function Energy(mass: real, v: Vec2): real { mass * Dot(v, v) }

  /** The squared centre distance the formula divides by. */
  function DistSquared(m: Motion, mo: Motion): real {
    Dot(Sub(m.position, mo.position), Sub(m.position, mo.position))
  }

  /** `vec2 / float`. */
  function Div(a: Vec2, k: real): Vec2
    requires k != 0.0
  {
    Vec2(a.x / k, a.y / k)
  }

  /**
   * The term the formula scales and subtracts: the difference of velocities
   * multiplied component by component with the difference of positions,
   * divided by the squared distance, and multiplied component by component
   * with the difference of positions again.
   */
  function Projected(m: Motion, mo: Motion): Vec2
    requires DistSquared(m, mo) != 0.0
  {
    Mul(Div(Mul(Sub(m.velocity, mo.velocity), Sub(m.position, mo.position)), DistSquared(m, mo)),
        Sub(m.position, mo.position))
  }

  /**
   * `computeCollisionVelocity(entity, other)`: the velocity of `entity` minus
   * `2 mo / (m + mo)` times the projected term. The gravity flag has no effect.
   */
  function CollisionVelocity(m: Motion, mo: Motion, p: Physics, po: Physics): (v: Vec2)
    requires DistSquared(m, mo) != 0.0 && p.mass + po.mass != 0.0
    ensures m.velocity == mo.velocity ==> v == m.velocity
    ensures m.position.x == mo.position.x ==> v.x == m.velocity.x
    ensures m.position.y == mo.position.y ==> v.y == m.velocity.y
  {
    Sub(m.velocity, Scale(Coefficient(p, po), Projected(m, mo)))
  }

  /** Seen from the other body, the projected term changes sign. */
  lemma ProjectedAntisymmetric(m: Motion, mo: Motion)
    requires DistSquared(m, mo) != 0.0
    ensures DistSquared(mo, m) == DistSquared(m, mo)
    ensures Projected(mo, m) == Vec2(-Projected(m, mo).x, -Projected(m, mo).y)
  {
    var dp, dp' := Sub(m.position, mo.position), Sub(mo.position, m.position);
    assert dp' == Vec2(-dp.x, -dp.y);
    var d := DistSquared(m, mo);
    assert DistSquared(mo, m) == d;
    var num, num' := Mul(Sub(m.velocity, mo.velocity), dp), Mul(Sub(mo.velocity, m.velocity), dp');
    assert num' == num;
  }

  /** The gravity flags do not enter the formula. */
  lemma CollisionVelocityIgnoresGravity(m: Motion, mo: Motion, p: Physics, po: Physics, g: bool, go: bool)
    requires DistSquared(m, mo) != 0.0 && p.mass + po.mass != 0.0
    ensures CollisionVelocity(m, mo, p.(affectedByGravity := g), po.(affectedByGravity := go))
         == CollisionVelocity(m, mo, p, po)
  {
  }

  /** The masses' weights in the formula agree: `m * 2 mo / M == mo * 2 m / M`. */
  lemma CoefficientsBalance(p: Physics, po: Physics)
    requires p.mass + po.mass != 0.0
    ensures p.mass * Coefficient(p, po) == po.mass * Coefficient(po, p)
  {
    var m, mo := p.mass, po.mass;
    assert m * ((2.0 * mo) / (m + mo)) == (2.0 * m * mo) / (m + mo);
    assert mo * ((2.0 * m) / (mo + m)) == (2.0 * m * mo) / (m + mo);
  }

  /** The coefficient `2 mo / (m + mo)` of the formula. */
  function Coefficient(p: Physics, po: Physics): real
    requires p.mass + po.mass != 0.0
  {
    (2.0 * po.mass) / (p.mass + po.mass)
  }

  /** Scaling an update `a - c n` by `m` moves the factor `m` onto the step. */
  lemma ScaledStep(m: real, c: real, a: Vec2, n: Vec2)
    ensures Scale(m, Sub(a, Scale(c, n))) == Sub(Scale(m, a), Scale(m * c, n))
  {
  }

  /** Scaling an update `b - c (-n)` by `mo` moves the factor `mo` onto the step. */
  lemma ScaledStepBack(mo: real, c: real, b: Vec2, n: Vec2)
    ensures Scale(mo, Sub(b, Scale(c, Vec2(-n.x, -n.y)))) == Add(Scale(mo, b), Scale(mo * c, n))
  {
  }

  /** A step taken from one sum and given to the other cancels. */
  lemma StepCancels(x: Vec2, y: Vec2, w: Vec2)
    ensures Add(Sub(x, w), Add(y, w)) == Add(x, y)
  {
  }

  /** Momentum balance of two updates `a - c1 n` and `b + c2 n` with `m c1 == mo c2`. */
  lemma MomentumAlgebra(m: real, mo: real, c1: real, c2: real, a: Vec2, b: Vec2, n: Vec2)
    requires m * c1 == mo * c2
    ensures Add(Scale(m, Sub(a, Scale(c1, n))), Scale(mo, Sub(b, Scale(c2, Vec2(-n.x, -n.y)))))
         == Add(Scale(m, a), Scale(mo, b))
  {
    ScaledStep(m, c1, a, n);
    ScaledStepBack(mo, c2, b, n);
    assert Scale(mo * c2, n) == Scale(m * c1, n);
    StepCancels(Scale(m, a), Scale(mo, b), Scale(m * c1, n));
  }

  /**
   * Applied to both bodies of a collision, the formula conserves momentum on
   * each axis separately.
   */
  lemma CollisionConservesMomentum(m: Motion, mo: Motion, p: Physics, po: Physics)
    requires DistSquared(m, mo) != 0.0 && p.mass + po.mass != 0.0
    ensures DistSquared(mo, m) != 0.0
    ensures Add(Scale(p.mass, CollisionVelocity(m, mo, p, po)), Scale(po.mass, CollisionVelocity(mo, m, po, p)))
         == Add(Scale(p.mass, m.velocity), Scale(po.mass, mo.velocity))
  {
    ProjectedAntisymmetric(m, mo);
    CoefficientsBalance(p, po);
    MomentumAlgebra(p.mass, po.mass, Coefficient(p, po), Coefficient(po, p), m.velocity, mo.velocity, Projected(m, mo));
  }

  /** The example's moving body: centre (1, 1), velocity (1, 0). */
  const ExampleMover: Motion := Motion(Vec2(1.0, 1.0), Vec2(1.0, 0.0), 0.0, Vec2(1.0, 1.0))

  /** The example's body at rest at the origin. */
  const ExampleTarget: Motion := Motion(Vec2(0.0, 0.0), Vec2(0.0, 0.0), 0.0, Vec2(1.0, 1.0))

  /** Each body sees the other's centre elsewhere than its own. */
  predicate Apart(m: Motion, mo: Motion) {
    DistSquared(m, mo) != 0.0 && DistSquared(mo, m) != 0.0
  }

  /** The kinetic energy of both bodies once the formula is applied to each. */
  function EnergyAfterCollision(m: Motion, mo: Motion, p: Physics, po: Physics): (e: real)
    requires Apart(m, mo) && p.mass + po.mass != 0.0
    ensures m.velocity == mo.velocity ==> e == Energy(p.mass, m.velocity) + Energy(po.mass, mo.velocity)
  {
    Energy(p.mass, CollisionVelocity(m, mo, p, po)) + Energy(po.mass, CollisionVelocity(mo, m, po, p))
  }

  // The example's arithmetic is split into one fact per lemma: proved
  // together, the real products and quotients exceed the solver's budget.

  lemma ExampleMoverVelocityDiff()
    ensures Sub(ExampleMover.velocity, ExampleTarget.velocity) == Vec2(1.0, 0.0)
  {
  }

  lemma ExampleMoverPositionDiff()
    ensures Sub(ExampleMover.position, ExampleTarget.position) == Vec2(1.0, 1.0)
  {
  }

  lemma ExampleTargetVelocityDiff()
    ensures Sub(ExampleTarget.velocity, ExampleMover.velocity) == Vec2(-1.0, 0.0)
  {
  }

  lemma ExampleTargetPositionDiff()
    ensures Sub(ExampleTarget.position, ExampleMover.position) == Vec2(-1.0, -1.0)
  {
  }

  lemma ExampleSquare()
    ensures Dot(Vec2(1.0, 1.0), Vec2(1.0, 1.0)) == 2.0
  {
  }

  lemma ExampleSquareBack()
    ensures Dot(Vec2(-1.0, -1.0), Vec2(-1.0, -1.0)) == 2.0
  {
  }

  lemma ExampleProduct()
    ensures Mul(Vec2(1.0, 0.0), Vec2(1.0, 1.0)) == Vec2(1.0, 0.0)
  {
  }

  lemma ExampleProductBack()
    ensures Mul(Vec2(-1.0, 0.0), Vec2(-1.0, -1.0)) == Vec2(1.0, 0.0)
  {
  }

  lemma ExampleQuotient()
    ensures Div(Vec2(1.0, 0.0), 2.0) == Vec2(0.5, 0.0)
  {
  }

  lemma ExampleSpread()
    ensures Mul(Vec2(0.5, 0.0), Vec2(1.0, 1.0)) == Vec2(0.5, 0.0)
  {
  }

  lemma ExampleSpreadBack()
    ensures Mul(Vec2(0.5, 0.0), Vec2(-1.0, -1.0)) == Vec2(-0.5, 0.0)
  {
  }

  lemma ExampleCoefficient(b: Physics)
    requires b.mass == 1.0
    ensures Coefficient(b, b) == 1.0
  {
  }

  lemma ExampleUpdate()
    ensures Sub(Vec2(1.0, 0.0), Scale(1.0, Vec2(0.5, 0.0))) == Vec2(0.5, 0.0)
  {
  }

  lemma ExampleUpdateBack()
    ensures Sub(Vec2(0.0, 0.0), Scale(1.0, Vec2(-0.5, 0.0))) == Vec2(0.5, 0.0)
  {
  }

  lemma ExampleEnergyAfter()
    ensures Energy(1.0, Vec2(0.5, 0.0)) == 0.25
  {
  }

  lemma ExampleEnergyMover()
    ensures Energy(1.0, Vec2(1.0, 0.0)) == 1.0
  {
  }

  lemma ExampleEnergyTarget()
    ensures Energy(1.0, Vec2(0.0, 0.0)) == 0.0
  {
  }

  /** The example's centres are a unit apart on each axis. */
  lemma ExampleDistance()
    ensures DistSquared(ExampleMover, ExampleTarget) == 2.0
  {
    ExampleMoverPositionDiff();
    ExampleSquare();
  }

  lemma ExampleDistanceBack()
    ensures DistSquared(ExampleTarget, ExampleMover) == 2.0
  {
    ExampleTargetPositionDiff();
    ExampleSquareBack();
  }

  /** So the example's bodies are apart. */
  lemma ExampleApart()
    ensures Apart(ExampleMover, ExampleTarget)
  {
    ExampleDistance();
    ExampleDistanceBack();
  }

  /** The moving body's projected term is (0.5, 0). */
  lemma ExampleProjected()
    requires Apart(ExampleMover, ExampleTarget)
    ensures Projected(ExampleMover, ExampleTarget) == Vec2(0.5, 0.0)
  {
    ExampleDistance();
    ExampleMoverVelocityDiff();
    ExampleMoverPositionDiff();
    ExampleProduct();
    ExampleQuotient();
    ExampleSpread();
  }

  /** The resting body's projected term is (-0.5, 0). */
  lemma ExampleProjectedBack()
    requires Apart(ExampleMover, ExampleTarget)
    ensures Projected(ExampleTarget, ExampleMover) == Vec2(-0.5, 0.0)
  {
    ExampleDistanceBack();
    ExampleTargetVelocityDiff();
    ExampleTargetPositionDiff();
    ExampleProductBack();
    ExampleQuotient();
    ExampleSpreadBack();
  }

  /** With unit masses the moving body slows to (0.5, 0). */
  lemma ExampleVelocity(b: Physics)
    requires b.mass == 1.0 && Apart(ExampleMover, ExampleTarget)
    ensures CollisionVelocity(ExampleMover, ExampleTarget, b, b) == Vec2(0.5, 0.0)
  {
    ExampleProjected();
    ExampleCoefficient(b);
    ExampleUpdate();
  }

  /** With unit masses the body at rest is pushed to (0.5, 0) as well. */
  lemma ExampleVelocityBack(b: Physics)
    requires b.mass == 1.0 && Apart(ExampleMover, ExampleTarget)
    ensures CollisionVelocity(ExampleTarget, ExampleMover, b, b) == Vec2(0.5, 0.0)
  {
    ExampleProjectedBack();
    ExampleCoefficient(b);
    ExampleUpdateBack();
  }

  /**
   * On the example both unit-mass bodies end with velocity (0.5, 0): momentum
   * is kept, but half of the kinetic energy is lost, which an elastic response
   * does not do.
   */
  lemma CollisionVelocityLosesEnergy(b: Physics)
    requires b.mass == 1.0
    ensures Apart(ExampleMover, ExampleTarget)
    ensures CollisionVelocity(ExampleMover, ExampleTarget, b, b) == Vec2(0.5, 0.0)
    ensures CollisionVelocity(ExampleTarget, ExampleMover, b, b) == Vec2(0.5, 0.0)
    ensures 2.0 * EnergyAfterCollision(ExampleMover, ExampleTarget, b, b)
         == Energy(b.mass, ExampleMover.velocity) + Energy(b.mass, ExampleTarget.velocity)
  {
    ExampleApart();
    ExampleVelocity(b);
    ExampleVelocityBack(b);
    ExampleEnergyAfter();
    ExampleEnergyMover();
    ExampleEnergyTarget();
  }

  /** The scalar of the elastic response: `((v - vo) . (x - xo)) / |x - xo|^2`. */
  function ElasticTerm(m: Motion, mo: Motion): real
    requires DistSquared(m, mo) != 0.0
  {
    Dot(Sub(m.velocity, mo.velocity), Sub(m.position, mo.position)) / DistSquared(m, mo)
  }

  /**
   * The elastic response the formula is evidently meant to be: the difference
   * of velocities is projected on the line of centres with a dot product.
   */
  function ElasticVelocity(m: Motion, mo: Motion, p: Physics, po: Physics): (v: Vec2)
    requires DistSquared(m, mo) != 0.0 && p.mass + po.mass != 0.0
    ensures Dot(Sub(m.velocity, mo.velocity), Sub(m.position, mo.position)) == 0.0 ==> v == m.velocity
  {
    Sub(m.velocity, Scale(Coefficient(p, po) * ElasticTerm(m, mo), Sub(m.position, mo.position)))
  }

  function Neg(a: Vec2): Vec2 { Vec2(-a.x, -a.y) }

  /** Seen from the other body, the scalar is the same and the line of centres is reversed. */
  lemma ElasticTermSymmetric(m: Motion, mo: Motion)
    requires DistSquared(m, mo) != 0.0
    ensures DistSquared(mo, m) == DistSquared(m, mo)
    ensures ElasticTerm(mo, m) == ElasticTerm(m, mo)
    ensures Sub(mo.position, m.position) == Neg(Sub(m.position, mo.position))
  {
    var dv, dp := Sub(m.velocity, mo.velocity), Sub(m.position, mo.position);
    assert Sub(mo.velocity, m.velocity) == Neg(dv);
    assert Sub(mo.position, m.position) == Neg(dp);
    assert Dot(Neg(dv), Neg(dp)) == Dot(dv, dp);
    assert Dot(Neg(dp), Neg(dp)) == Dot(dp, dp);
  }

  /** The other body's elastic velocity in terms of this body's scalar and line of centres. */
  lemma ElasticVelocityOther(m: Motion, mo: Motion, p: Physics, po: Physics)
    requires DistSquared(m, mo) != 0.0 && p.mass + po.mass != 0.0
    ensures DistSquared(mo, m) != 0.0
    ensures ElasticVelocity(mo, m, po, p)
         == Sub(mo.velocity, Scale(Coefficient(po, p) * ElasticTerm(m, mo), Neg(Sub(m.position, mo.position))))
  {
    ElasticTermSymmetric(m, mo);
  }

  lemma CoefficientsSum(p: Physics, po: Physics)
    requires p.mass + po.mass != 0.0
    ensures Coefficient(p, po) + Coefficient(po, p) == 2.0
  {
  }

  /** The balance of the coefficients survives scaling both by the same factor. */
  lemma ScaledBalance(p: Physics, po: Physics, k: real)
    requires p.mass + po.mass != 0.0
    ensures p.mass * (Coefficient(p, po) * k) == po.mass * (Coefficient(po, p) * k)
  {
    CoefficientsBalance(p, po);
    assert p.mass * (Coefficient(p, po) * k) == (p.mass * Coefficient(p, po)) * k;
    assert po.mass * (Coefficient(po, p) * k) == (po.mass * Coefficient(po, p)) * k;
  }

  /** The elastic response conserves momentum. */
  lemma ElasticConservesMomentum(m: Motion, mo: Motion, p: Physics, po: Physics)
    requires DistSquared(m, mo) != 0.0 && p.mass + po.mass != 0.0
    ensures DistSquared(mo, m) != 0.0
    ensures Add(Scale(p.mass, ElasticVelocity(m, mo, p, po)), Scale(po.mass, ElasticVelocity(mo, m, po, p)))
         == Add(Scale(p.mass, m.velocity), Scale(po.mass, mo.velocity))
  {
    ElasticVelocityOther(m, mo, p, po);
    var k := ElasticTerm(m, mo);
    ScaledBalance(p, po, k);
    MomentumAlgebra(p.mass, po.mass, Coefficient(p, po) * k, Coefficient(po, p) * k,
                    m.velocity, mo.velocity, Sub(m.position, mo.position));
  }

  /** `(x - s y)^2` expanded. */
  lemma SquareShift(x: real, s: real, y: real)
    ensures (x - s * y) * (x - s * y) == x * x - 2.0 * s * (x * y) + s * s * (y * y)
  {
  }

  /** `|a - s u|^2` expanded. */
  lemma DotShift(a: Vec2, s: real, u: Vec2)
    ensures Dot(Sub(a, Scale(s, u)), Sub(a, Scale(s, u))) == Dot(a, a) - 2.0 * s * Dot(a, u) + s * s * Dot(u, u)
  {
    SquareShift(a.x, s, u.x);
    SquareShift(a.y, s, u.y);
  }

  /** Reversing one side of a dot product negates it; reversing both keeps it. */
  lemma DotNeg(a: Vec2, u: Vec2)
    ensures Dot(a, Neg(u)) == -Dot(a, u)
    ensures Dot(Neg(u), Neg(u)) == Dot(u, u)
  {
  }

  /** `e` is `mass |a - s u|^2` expanded, from `|a|^2`, `a . u` and `|u|^2`. */
  predicate Expanded(e: real, mass: real, aa: real, s: real, au: real, uu: real) {
    e == mass * (aa - 2.0 * s * au + s * s * uu)
  }

  /** Twice the kinetic energy of a velocity shifted along `u`. */
  lemma EnergyShift(mass: real, a: Vec2, s: real, u: Vec2)
    ensures Expanded(Energy(mass, Sub(a, Scale(s, u))), mass, Dot(a, a), s, Dot(a, u), Dot(u, u))
  {
    DotShift(a, s, u);
  }

  /** The kinetic energy unshifted, in the same expanded form. */
  lemma EnergyUnshifted(mass: real, a: Vec2, u: Vec2)
    ensures Expanded(Energy(mass, a), mass, Dot(a, a), 0.0, Dot(a, u), Dot(u, u))
  {
  }

  /** Twice the kinetic energy of a velocity shifted against `u`. */
  lemma EnergyShiftBack(mass: real, a: Vec2, s: real, u: Vec2)
    ensures Expanded(Energy(mass, Sub(a, Scale(s, Neg(u)))), mass, Dot(a, a), s, -Dot(a, u), Dot(u, u))
  {
    EnergyShift(mass, a, s, Neg(u));
    DotNeg(a, u);
  }

  /** The elastic scalar times the squared distance is the difference of the dot products. */
  lemma ElasticTermTimesDistance(m: Motion, mo: Motion)
    requires DistSquared(m, mo) != 0.0
    ensures ElasticTerm(m, mo) * DistSquared(m, mo)
         == Dot(m.velocity, Sub(m.position, mo.position)) - Dot(mo.velocity, Sub(m.position, mo.position))
  {
    var dp := Sub(m.position, mo.position);
    var e := Dot(Sub(m.velocity, mo.velocity), dp);
    assert e == Dot(m.velocity, dp) - Dot(mo.velocity, dp);
    assert (e / DistSquared(m, mo)) * DistSquared(m, mo) == e;
  }

  /**
   * The energy balance of `a - c1 k u` and `b + c2 k u`, expanded, for
   * coefficients that balance the masses and sum to 2.
   */
  lemma EnergySum(m: real, mo: real, c1: real, c2: real, k: real, d: real, ea: real, eb: real, va: real, vb: real,
                  e1: real, e2: real, f1: real, f2: real)
    requires m * c1 == mo * c2 && c1 + c2 == 2.0 && ea - eb == k * d
    requires Expanded(e1, m, va, c1 * k, ea, d) && Expanded(e2, mo, vb, c2 * k, -eb, d)
    requires Expanded(f1, m, va, 0.0, ea, d) && Expanded(f2, mo, vb, 0.0, eb, d)
    ensures e1 + e2 == f1 + f2
  {
    assert f1 == m * va && f2 == mo * vb;
    assert e1 == m * (va - 2.0 * (c1 * k) * ea + (c1 * k) * (c1 * k) * d);
    assert e2 == mo * (vb - 2.0 * (c2 * k) * -eb + (c2 * k) * (c2 * k) * d);
    var q := m * c1;
    assert m * (2.0 * (c1 * k) * ea) == 2.0 * q * k * ea;
    assert mo * (2.0 * (c2 * k) * eb) == 2.0 * q * k * eb;
    assert m * ((c1 * k) * (c1 * k) * d) == q * c1 * k * k * d;
    assert mo * ((c2 * k) * (c2 * k) * d) == q * c2 * k * k * d;
    assert q * c1 * k * k * d + q * c2 * k * k * d == 2.0 * q * k * (k * d);
    assert 2.0 * q * k * ea - 2.0 * q * k * eb == 2.0 * q * k * (k * d);
  }

  /** Energy balance of `a - c1 k u` and `b - c2 k (-u)` for balanced coefficients summing to 2. */
  lemma EnergyBalance(mass: real, massO: real, a: Vec2, b: Vec2, u: Vec2, c1: real, c2: real, k: real)
    requires mass * c1 == massO * c2 && c1 + c2 == 2.0 && Dot(a, u) - Dot(b, u) == k * Dot(u, u)
    ensures Energy(mass, Sub(a, Scale(c1 * k, u))) + Energy(massO, Sub(b, Scale(c2 * k, Neg(u))))
         == Energy(mass, a) + Energy(massO, b)
  {
    EnergyShift(mass, a, c1 * k, u);
    EnergyShiftBack(massO, b, c2 * k, u);
    EnergyUnshifted(mass, a, u);
    EnergyUnshifted(massO, b, u);
    EnergySum(mass, massO, c1, c2, k, Dot(u, u), Dot(a, u), Dot(b, u), Dot(a, a), Dot(b, b),
              Energy(mass, Sub(a, Scale(c1 * k, u))), Energy(massO, Sub(b, Scale(c2 * k, Neg(u)))),
              Energy(mass, a), Energy(massO, b));
  }

  /** The elastic response conserves kinetic energy, which the formula as written does not. */
  lemma ElasticConservesEnergy(m: Motion, mo: Motion, p: Physics, po: Physics)
    requires DistSquared(m, mo) != 0.0 && p.mass + po.mass != 0.0
    ensures DistSquared(mo, m) != 0.0
    ensures Energy(p.mass, ElasticVelocity(m, mo, p, po)) + Energy(po.mass, ElasticVelocity(mo, m, po, p))
         == Energy(p.mass, m.velocity) + Energy(po.mass, mo.velocity)
  {
    ElasticVelocityOther(m, mo, p, po);
    ElasticTermTimesDistance(m, mo);
    CoefficientsSum(p, po);
    CoefficientsBalance(p, po);
    EnergyBalance(p.mass, po.mass, m.velocity, mo.velocity, Sub(m.position, mo.position),
                  Coefficient(p, po), Coefficient(po, p), ElasticTerm(m, mo));
  }
}
