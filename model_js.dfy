/**
 * The velocity-Verlet animation model of `model.js`: a record carrying a value,
 * a velocity and an acceleration is stepped by half-step Verlet integration under
 * a force law, checked against an end condition, and optionally corrected by
 * elastic boundary constraints.
 */
module ModelJs {
  import opened Numeric
  import Physical

  /** The tolerance of the stop predicates. */
  const Eps: real := 0.0001

  /** A snapshot of the fields of a simulated record. */
  datatype BodyState = BodyState(value: real, velocity: real, acceleration: real,
                                 endValue: real, finished: bool)

  /**
   * The end conditions a record may carry. A custom condition is a host
   * predicate on the record that does not change it.
   */
  datatype EndCondition =
    | StopControlled
    | StopUncontrolled
    | DontStop
    | Custom(holds: BodyState -> bool)

  class Body {
    var value: real
    var velocity: real
    var acceleration: real
    var endValue: real
    var finished: bool
    const endCondition: EndCondition

    function State(): BodyState
      reads this
    {
      BodyState(value, velocity, acceleration, endValue, finished)
    }

    constructor (value: real, velocity: real, acceleration: real, endValue: real,
                 endCondition: EndCondition)
      ensures State() == BodyState(value, velocity, acceleration, endValue, false)
      ensures this.endCondition == endCondition
    {
      this.value := value;
      this.velocity := velocity;
      this.acceleration := acceleration;
      this.endValue := endValue;
      this.finished := false;
      this.endCondition := endCondition;
    }
  }

  // ---------------------------------------------------------------------------
  // Stop predicates
  // ---------------------------------------------------------------------------

  /**
   * `stopControlled`: whether the record is at rest on its end value, and the
   * record after the check, whose value is snapped onto the end value when it is.
   */
  function StopControlledCheck(s: BodyState): (bool, BodyState) {
    var cond := Abs(s.endValue - s.value) < Eps && Abs(s.velocity) < Eps;
    (cond, if cond then s.(value := s.endValue) else s)
  }

  /** `stopUncontrolled`: the record has neither velocity nor acceleration left. */
  predicate StopUncontrolledHolds(s: BodyState) {
    Abs(s.velocity) < Eps && Abs(s.acceleration) < Eps
  }

  /** Runs an end condition: whether it holds, and the record after it ran. */
  function EndCheck(c: EndCondition, s: BodyState): (bool, BodyState) {
    match c
    case StopControlled => StopControlledCheck(s)
    case StopUncontrolled => (StopUncontrolledHolds(s), s)
    case DontStop => (false, s)
    case Custom(holds) => (holds(s), s)
  }

  method CheckStopControlled(o: Body) returns (cond: bool)
    modifies o
    ensures (cond, o.State()) == StopControlledCheck(old(o.State()))
  {
    cond := Abs(o.endValue - o.value) < Eps && Abs(o.velocity) < Eps;
    if cond {
      o.value := o.endValue;
    }
  }

  method CheckEnd(o: Body) returns (holds: bool)
    modifies o
    ensures (holds, o.State()) == EndCheck(o.endCondition, old(o.State()))
  {
    match o.endCondition
    case StopControlled =>
      holds := CheckStopControlled(o);
    case StopUncontrolled =>
      holds := Abs(o.velocity) < Eps && Abs(o.acceleration) < Eps;
    case DontStop =>
      holds := false;
    case Custom(p) =>
      holds := p(o.State());
  }

  /**
   * What each end condition tests, and that only a controlled stop changes the
   * record, by snapping its value onto the end value; a second controlled check
   * on a snapped record holds again and changes nothing.
   */
  lemma EndConditions(c: EndCondition, s: BodyState)
    ensures c.StopControlled? ==>
      && (EndCheck(c, s).0 <==> Abs(s.endValue - s.value) < Eps && Abs(s.velocity) < Eps)
      && (EndCheck(c, s).0 ==> EndCheck(c, s).1 == s.(value := s.endValue))
      && (EndCheck(c, s).0 ==> EndCheck(c, EndCheck(c, s).1) == EndCheck(c, s))
    ensures c.StopUncontrolled? ==>
      (EndCheck(c, s).0 <==> Abs(s.velocity) < Eps && Abs(s.acceleration) < Eps)
    ensures c.DontStop? ==> !EndCheck(c, s).0
    ensures !c.StopControlled? || !EndCheck(c, s).0 ==> EndCheck(c, s).1 == s
  {
  }

  // ---------------------------------------------------------------------------
  // Verlet integration
  // ---------------------------------------------------------------------------

  /** The half-step Verlet update of value, velocity and acceleration. */
  function Kick(s: BodyState, newA: real, dt: real): BodyState {
    var halfV := s.velocity + 0.5 * s.acceleration * dt;
    s.(value := s.value + halfV * dt, velocity := halfV + 0.5 * newA * dt, acceleration := newA)
  }

  /** `verletIntegration(obj, newA, dt)`: the update, then the end condition. */
  function VerletState(s: BodyState, newA: real, dt: real, c: EndCondition): BodyState {
    var r := EndCheck(c, Kick(s, newA, dt));
    if r.0 then r.1.(finished := true) else r.1
  }

  method VerletIntegration(obj: Body, newA: real, dt: real) returns (r: Body)
    modifies obj
    ensures r == obj
    ensures obj.State() == VerletState(old(obj.State()), newA, dt, obj.endCondition)
  {
    var x := obj.value;
    var v := obj.velocity;
    var a := obj.acceleration;
    ghost var s0 := obj.State();
    var halfV := v + 0.5 * a * dt;
    assert halfV == s0.velocity + 0.5 * s0.acceleration * dt;
    obj.value := x + halfV * dt;
    obj.velocity := halfV + 0.5 * newA * dt;
    obj.acceleration := newA;
    assert obj.State() == Kick(s0, newA, dt) by {
      var k := Kick(s0, newA, dt);
      assert k.value == x + halfV * dt && k.velocity == halfV + 0.5 * newA * dt;
    }
    var holds := CheckEnd(obj);
    if holds {
      obj.finished := true;
    }
    r := obj;
  }

  /**
   * One Verlet step moves by v dt + a dt^2 / 2 (unless a controlled stop snaps
   * the value), changes the velocity by the mean of the old and new
   * accelerations, stores the new acceleration, keeps the end value, and marks
   * the record finished exactly when it was or the end condition holds after the
   * update.
   */
  lemma VerletStep(s: BodyState, newA: real, dt: real, c: EndCondition)
    ensures var r := VerletState(s, newA, dt, c);
      && r.acceleration == newA
      && r.velocity == s.velocity + (s.acceleration + newA) / 2.0 * dt
      && (r.value == s.value + s.velocity * dt + s.acceleration * dt * dt / 2.0
          || (c.StopControlled? && r.value == s.endValue))
      && (!c.StopControlled? ==> r.value == s.value + s.velocity * dt + s.acceleration * dt * dt / 2.0)
      && r.endValue == s.endValue
      && (r.finished <==> s.finished || EndCheck(c, Kick(s, newA, dt)).0)
  {
  }

  /** n Verlet steps under the same acceleration a. */
  function Steps(s: BodyState, n: nat, a: real, dt: real, c: EndCondition): BodyState {
    if n == 0 then s else VerletState(Steps(s, n - 1, a, dt, c), a, dt, c)
  }

  /** The time n steps of dt cover, accumulated step by step. */
  function Elapsed(n: nat, dt: real): real {
    if n == 0 then 0.0 else Elapsed(n - 1, dt) + dt
  }

  lemma {:induction false} ElapsedIsProduct(n: nat, dt: real)
    ensures Elapsed(n, dt) == n as real * dt
  {
    if n > 0 {
      ElapsedIsProduct(n - 1, dt);
      assert n as real * dt == (n - 1) as real * dt + dt;
    }
  }

  /** n bare Verlet updates under the same acceleration a, with no end condition. */
  function Kicks(s: BodyState, n: nat, a: real, dt: real): BodyState {
    if n == 0 then s else Kick(Kicks(s, n - 1, a, dt), a, dt)
  }

  /** Two records in the same kinematic state. */
  predicate SameMotion(p: BodyState, q: BodyState) {
    p.value == q.value && p.velocity == q.velocity && p.acceleration == q.acceleration
  }

  /** Under an end condition that does not snap, the steps only add the finished flag. */
  lemma {:induction false} StepsFollowKicks(s: BodyState, n: nat, a: real, dt: real, c: EndCondition)
    requires !c.StopControlled?
    ensures SameMotion(Steps(s, n, a, dt, c), Kicks(s, n, a, dt))
  {
    if n > 0 {
      StepsFollowKicks(s, n - 1, a, dt, c);
      var p := Steps(s, n - 1, a, dt, c);
      EndConditions(c, Kick(p, a, dt));
      KickKeepsSameMotion(p, Kicks(s, n - 1, a, dt), a, dt);
    }
  }

  lemma KickKeepsSameMotion(p: BodyState, q: BodyState, a: real, dt: real)
    requires SameMotion(p, q)
    ensures SameMotion(Kick(p, a, dt), Kick(q, a, dt))
  {
  }

  /**
   * `r` is where uniformly accelerated motion from value x0 and velocity v0
   * under the acceleration a is after the time T.
   */
  predicate OnParabola(r: BodyState, x0: real, v0: real, a: real, T: real) {
    && r.value == x0 + v0 * T + a * T * T / 2.0
    && r.velocity == v0 + a * T
    && r.acceleration == a
  }

  /** The bare updates trace uniformly accelerated motion. */
  lemma {:induction false} KicksAreExact(s: BodyState, n: nat, a: real, dt: real)
    requires s.acceleration == a
    ensures OnParabola(Kicks(s, n, a, dt), s.value, s.velocity, a, Elapsed(n, dt))
  {
    if n == 0 {
      assert Elapsed(n, dt) == 0.0;
      ParabolaStart(s, a);
    } else {
      KicksAreExact(s, n - 1, a, dt);
      var p := Kicks(s, n - 1, a, dt);
      ParabolaStep(p, s.value, s.velocity, a, Elapsed(n - 1, dt), dt);
      assert Kicks(s, n, a, dt) == Kick(p, a, dt);
      assert Elapsed(n, dt) == Elapsed(n - 1, dt) + dt;
    }
  }

  /**
   * Verlet integration is exact for constant acceleration: after n steps of dt
   * from a record already accelerating at a, the value and velocity are those of
   * uniformly accelerated motion over the elapsed time.
   */
  lemma {:induction false} ConstantAccelerationIsExact(s: BodyState, n: nat, a: real, dt: real,
                                                       c: EndCondition)
    requires s.acceleration == a && !c.StopControlled?
    ensures OnParabola(Steps(s, n, a, dt, c), s.value, s.velocity, a, Elapsed(n, dt))
  {
    StepsFollowKicks(s, n, a, dt, c);
    KicksAreExact(s, n, a, dt);
    ParabolaTransfer(Steps(s, n, a, dt, c), Kicks(s, n, a, dt), s.value, s.velocity, a, Elapsed(n, dt));
  }

  lemma ParabolaStart(s: BodyState, a: real)
    requires s.acceleration == a
    ensures OnParabola(s, s.value, s.velocity, a, 0.0)
  {
  }

  lemma ParabolaTransfer(p: BodyState, q: BodyState, x0: real, v0: real, a: real, T: real)
    requires SameMotion(p, q) && OnParabola(q, x0, v0, a, T)
    ensures OnParabola(p, x0, v0, a, T)
  {
  }

  /** `r` has gained the velocity a T on top of v0. */
  predicate GainsVelocity(r: BodyState, v0: real, a: real, T: real) {
    r.velocity == v0 + a * T
  }

  lemma ParabolaVelocity(r: BodyState, x0: real, v0: real, a: real, T: real)
    requires OnParabola(r, x0, v0, a, T)
    ensures GainsVelocity(r, v0, a, T)
  {
  }

  /** One more bare update of dt on a record on the parabola at T0 keeps it there at T0 + dt. */
  lemma ParabolaStep(p: BodyState, x0: real, v0: real, a: real, T0: real, dt: real)
    requires OnParabola(p, x0, v0, a, T0)
    ensures OnParabola(Kick(p, a, dt), x0, v0, a, T0 + dt)
  {
    var T := T0 + dt;
    var half := p.velocity + 0.5 * a * dt;
    assert half * dt == p.velocity * dt + a * dt * dt / 2.0;
    assert p.velocity * dt == v0 * dt + a * T0 * dt;
    assert v0 * T == v0 * T0 + v0 * dt;
    assert a * T * T == a * T0 * T0 + 2.0 * (a * T0) * dt + a * dt * dt;
    assert a * T == a * T0 + a * dt;
  }

  /** `r` has moved from x0 at the constant velocity v0 for the time T. */
  predicate MovesUniformly(r: BodyState, x0: real, v0: real, T: real) {
    r.value == x0 + v0 * T && r.velocity == v0
  }

  /** On the parabola of zero acceleration, the motion is uniform. */
  lemma Uniform(r: BodyState, x0: real, v0: real, T: real)
    requires OnParabola(r, x0, v0, 0.0, T)
    ensures MovesUniformly(r, x0, v0, T)
  {
  }

  /** With no acceleration a record moves uniformly: n steps cover v0 n dt. */
  lemma {:induction false} UniformMotion(s: BodyState, n: nat, dt: real, c: EndCondition)
    requires s.acceleration == 0.0 && !c.StopControlled?
    ensures MovesUniformly(Steps(s, n, 0.0, dt, c), s.value, s.velocity, n as real * dt)
  {
    ConstantAccelerationIsExact(s, n, 0.0, dt, c);
    Uniform(Steps(s, n, 0.0, dt, c), s.value, s.velocity, Elapsed(n, dt));
    ElapsedIsProduct(n, dt);
  }

  /** Once finished, a record stays finished through any number of steps. */
  lemma {:induction false} StepsKeepFinished(s: BodyState, n: nat, a: real, dt: real, c: EndCondition)
    requires s.finished
    ensures Steps(s, n, a, dt, c).finished
  {
    if n > 0 {
      StepsKeepFinished(s, n - 1, a, dt, c);
      VerletStep(Steps(s, n - 1, a, dt, c), a, dt, c);
    }
  }

  // ---------------------------------------------------------------------------
  // Forces
  // ---------------------------------------------------------------------------

  function GravityForce(g: real, s: BodyState): real { -g }

  /** Drag at a high Reynolds number: magnitude c v^2 against the motion. */
  function FluidDragForce(dragConstant: real, s: BodyState): real {
    var v := s.velocity;
    if v > 0.0 then -dragConstant * v * v else dragConstant * v * v
  }

  /** Drag at a low Reynolds number. */
  function AirDragForce(dragConstant: real, s: BodyState): real { -dragConstant * s.velocity }

  function SpringForce(springConstant: real, s: BodyState): real {
    (s.endValue - s.value) * springConstant
  }

  function DamperForce(damperConstant: real, s: BodyState): real { -damperConstant * s.velocity }

  /**
   * With positive constants, the fluid drag has magnitude c v^2 and the air drag
   * and damper are proportional to the velocity, all three against the motion,
   * and the spring pulls toward the end value, vanishing only there.
   */
  lemma {:induction false} ForcesOppose(c: real, k: real, s: BodyState)
    requires 0.0 < c && 0.0 < k
    ensures Abs(FluidDragForce(c, s)) == c * s.velocity * s.velocity
    ensures s.velocity != 0.0 ==> FluidDragForce(c, s) * s.velocity < 0.0
    ensures s.velocity != 0.0 ==> AirDragForce(c, s) * s.velocity < 0.0
    ensures s.velocity != 0.0 ==> DamperForce(c, s) * s.velocity < 0.0
    ensures SpringForce(k, s) * (s.endValue - s.value) >= 0.0
    ensures SpringForce(k, s) == 0.0 <==> s.value == s.endValue
  {
    var v := s.velocity;
    assert 0.0 <= c * v * v by {
      assert c * v * v == c * (v * v);
    }
    if v != 0.0 {
      assert 0.0 < v * v;
      assert 0.0 < c * (v * v);
      assert FluidDragForce(c, s) * v == (if v > 0.0 then -1.0 else 1.0) * c * (v * v) * v;
      assert AirDragForce(c, s) * v == -c * (v * v);
    }
    var d := s.endValue - s.value;
    assert SpringForce(k, s) * d == k * (d * d);
  }

  // ---------------------------------------------------------------------------
  // Simulations
  // ---------------------------------------------------------------------------

  /** The step functions the makers return, by the force law they apply. */
  datatype Simulation =
    | MassSpringDamper(mass: real, springConstant: real, damperConstant: real)
    | Gravity(g: real)
    | AirDrag(dragConstant: real)
    | FluidDrag(dragConstant: real)
    | Nothing

  /** The mass-spring-damper divides by its mass. */
  predicate Defined(sim: Simulation) {
    sim.MassSpringDamper? ==> sim.mass != 0.0
  }

  /** The acceleration a simulation feeds to the Verlet step. */
  function Acceleration(sim: Simulation, s: BodyState): real
    requires Defined(sim)
  {
    match sim
    case MassSpringDamper(m, k, c) => (SpringForce(k, s) + DamperForce(c, s)) / m
    case Gravity(g) => GravityForce(g, s)
    case AirDrag(c) => AirDragForce(c, s)
    case FluidDrag(c) => FluidDragForce(c, s)
    case Nothing => 0.0
  }

  function SimulateState(sim: Simulation, s: BodyState, dt: real, c: EndCondition): BodyState
    requires Defined(sim)
  {
    VerletState(s, Acceleration(sim, s), dt, c)
  }

  /**
   * Runs a step function on a record. Every simulation but `nothing` returns the
   * record; `nothing` steps it and returns undefined (None).
   */
  method Simulate(sim: Simulation, obj: Body, dt: real) returns (r: Option<Body>)
    requires Defined(sim)
    modifies obj
    ensures obj.State() == SimulateState(sim, old(obj.State()), dt, obj.endCondition)
    ensures r == if sim.Nothing? then None else Some(obj)
  {
    var newA: real;
    match sim {
      case MassSpringDamper(m, k, c) =>
        newA := (SpringForce(k, obj.State()) + DamperForce(c, obj.State())) / m;
      case Gravity(g) =>
        newA := GravityForce(g, obj.State());
      case AirDrag(c) =>
        newA := AirDragForce(c, obj.State());
      case FluidDrag(c) =>
        newA := FluidDragForce(c, obj.State());
      case Nothing =>
        newA := 0.0;
    }
    var o := VerletIntegration(obj, newA, dt);
    if sim.Nothing? {
      r := None;
    } else {
      r := Some(o);
    }
  }

  /** `controlled.make.dampedHarmonicOscillator(frequency, damping)`. */
  function DampedHarmonicOscillator(frequency: real, damping: real): Simulation {
    MassSpringDamper(1.0, frequency * frequency, 2.0 * frequency * damping)
  }

  /** `controlled.make.criticallyDamped(frequency)` as written: frequency 1, damping `frequency`. */
  function CriticallyDampedAsWritten(frequency: real): Simulation {
    DampedHarmonicOscillator(1.0, frequency)
  }

  /** `controlled.make.criticallyDamped(frequency)` as intended: damping ratio 1. */
  function CriticallyDamped(frequency: real): Simulation {
    DampedHarmonicOscillator(frequency, 1.0)
  }

  /** `controlled.make.damper(mass, damping)`: a mass-spring-damper without spring. */
  function ControlledDamper(mass: real, damping: real): Simulation {
    MassSpringDamper(mass, 0.0, damping)
  }

  const ControlledUnderDamped: Simulation := DampedHarmonicOscillator(10.0, 0.5)
  const ControlledOverDamped: Simulation := DampedHarmonicOscillator(10.0, 1.3)
  /** The `criticallyDamped` preset, built by the maker as written. */
  const ControlledCriticallyDamped: Simulation := CriticallyDampedAsWritten(10.0)
  /** The preset the name promises, built by the corrected maker. */
  const IntendedCriticallyDamped: Simulation := CriticallyDamped(10.0)

  const UncontrolledGravity: Simulation := Gravity(10.0)
  const UncontrolledGravityUpsideDown: Simulation := Gravity(-10.0)
  const UncontrolledAirDrag: Simulation := AirDrag(0.5)
  const UncontrolledDamper: Simulation := AirDrag(5.0)
  const UncontrolledFluidDrag: Simulation := FluidDrag(5.0)
  const UncontrolledNothing: Simulation := Nothing

  /**
   * The mass-spring-damper applies (k (end - x) - c v) / m; the damped harmonic
   * oscillator accelerates by -w^2 (x - end) - 2 z w v, the equation the closed
   * forms of the physical library solve; the damper has no spring term.
   */
  lemma {:induction false} ControlledAccelerations(m: real, k: real, c: real, w: real, z: real,
                                                   s: BodyState)
    requires m != 0.0
    ensures Acceleration(MassSpringDamper(m, k, c), s)
      == (k * (s.endValue - s.value) - c * s.velocity) / m
    ensures Acceleration(DampedHarmonicOscillator(w, z), s)
      == -(w * w) * (s.value - s.endValue) - 2.0 * z * w * s.velocity
    ensures Acceleration(ControlledDamper(m, c), s) == -c * s.velocity / m
  {
    var d := s.endValue - s.value;
    assert SpringForce(k, s) == k * d;
    assert SpringForce(w * w, s) == -(w * w) * (s.value - s.endValue);
    assert DamperForce(2.0 * w * z, s) == -2.0 * z * w * s.velocity;
    assert SpringForce(0.0, s) == 0.0;
  }

  /**
   * How the uncontrolled presets accelerate: gravity pulls down at 10 (up for the
   * upside-down preset), the drags oppose motion and `nothing` feeds no force.
   */
  lemma {:induction false} UncontrolledAccelerations(s: BodyState)
    ensures Acceleration(UncontrolledGravity, s) == -10.0
    ensures Acceleration(UncontrolledGravityUpsideDown, s) == 10.0
    ensures Acceleration(UncontrolledNothing, s) == 0.0
    ensures s.velocity != 0.0 ==>
      && Acceleration(UncontrolledAirDrag, s) * s.velocity < 0.0
      && Acceleration(UncontrolledDamper, s) * s.velocity < 0.0
      && Acceleration(UncontrolledFluidDrag, s) * s.velocity < 0.0
  {
    ForcesOppose(0.5, 1.0, s);
    ForcesOppose(5.0, 1.0, s);
  }

  /**
   * The gravity step is exact: from a record already accelerating at -g, n steps
   * follow the parabola of free fall.
   */
  lemma {:induction false} GravityFollowsParabola(g: real, s: BodyState, n: nat, dt: real,
                                                  c: EndCondition)
    requires s.acceleration == -g && !c.StopControlled?
    ensures Acceleration(Gravity(g), s) == -g
    ensures FallsFreely(Steps(s, n, -g, dt, c), s.value, s.velocity, g, Elapsed(n, dt))
  {
    ConstantAccelerationIsExact(s, n, -g, dt, c);
    FreeFall(Steps(s, n, -g, dt, c), s.value, s.velocity, g, Elapsed(n, dt));
  }

  predicate FallsFreely(r: BodyState, x0: real, v0: real, g: real, T: real) {
    r.value == x0 + v0 * T - g * T * T / 2.0 && r.velocity == v0 - g * T
  }

  /** On the parabola of acceleration -g, the record falls by g T^2 / 2. */
  lemma FreeFall(r: BodyState, x0: real, v0: real, g: real, T: real)
    requires OnParabola(r, x0, v0, -g, T)
    ensures FallsFreely(r, x0, v0, g, T)
  {
    assert (-g) * T * T / 2.0 == -(g * T * T / 2.0);
    assert (-g) * T == -(g * T);
  }

  /** A mass-spring-damper is critically damped when c^2 = 4 m k with c >= 0. */
  predicate IsCriticallyDamped(sim: Simulation) {
    && sim.MassSpringDamper?
    && 0.0 <= sim.damperConstant
    && sim.damperConstant * sim.damperConstant == 4.0 * sim.mass * sim.springConstant
  }

  /**
   * As written, `criticallyDamped(f)` is critically damped only for f = 1; the
   * preset `criticallyDamped(10)` is over-damped, with c^2 = 400 against 4 m k = 4.
   */
  lemma {:induction false} CriticallyDampedAsWrittenIsNotCritical(frequency: real)
    ensures IsCriticallyDamped(CriticallyDampedAsWritten(frequency)) <==> frequency == 1.0
    ensures var sim := CriticallyDampedAsWritten(10.0);
      !IsCriticallyDamped(sim) && sim.damperConstant * sim.damperConstant > 4.0 * sim.mass * sim.springConstant
  {
    var f := frequency;
    assert CriticallyDampedAsWritten(f) == MassSpringDamper(1.0, 1.0, 2.0 * f);
    assert (2.0 * f) * (2.0 * f) == 4.0 * (f * f);
    if f * f == 1.0 && 0.0 <= f {
      SquareRootUnique(f, 1.0);
    }
  }

  /** The corrected maker is critically damped for every non-negative frequency. */
  lemma CorrectedMakerIsCritical(frequency: real)
    requires 0.0 <= frequency
    ensures IsCriticallyDamped(CriticallyDamped(frequency))
  {
    var f := frequency;
    assert CriticallyDamped(f) == MassSpringDamper(1.0, f * f, 2.0 * f);
    assert (2.0 * f) * (2.0 * f) == 4.0 * 1.0 * (f * f);
  }

  /**
   * The corrected maker is critically damped for every non-negative frequency,
   * and the physical library's mass-spring-damper with the same constants
   * dispatches to its critically damped closed form.
   */
  lemma {:induction false} CriticallyDampedIsCritical(F: Transcendental, frequency: real)
    requires 0.0 <= frequency
    ensures IsCriticallyDamped(CriticallyDamped(frequency))
    ensures F.Valid() && 0.0 < frequency ==>
      var sim := CriticallyDamped(frequency);
      var b := Physical.MakeMassSpringDamper(F, sim.mass, sim.springConstant, sim.damperConstant);
      b.Some? && b.value.CriticalBuilder?
  {
    var f := frequency;
    CorrectedMakerIsCritical(f);
    assert CriticallyDamped(f) == MassSpringDamper(1.0, f * f, 2.0 * f);
    if F.Valid() && 0.0 < f {
      SqrtOfSquare(F, f);
      assert 1.0 * (f * f) == f * f;
      assert F.sqrt(1.0 * (f * f)) == f;
      Physical.RatioWithOne(2.0 * f, 2.0 * F.sqrt(1.0 * (f * f)));
    }
  }

  /**
   * The controlled presets of model.js at frequency 10: under- and over-damped
   * oscillators, and a `criticallyDamped` preset that, built by the maker as
   * written, is the over-damped `massSpringDamper(1, 1, 20)`; only the corrected
   * maker gives the critical `massSpringDamper(1, 100, 20)`.
   */
  lemma {:induction false} Presets()
    ensures ControlledUnderDamped == MassSpringDamper(1.0, 100.0, 10.0)
    ensures ControlledOverDamped == MassSpringDamper(1.0, 100.0, 26.0)
    ensures ControlledCriticallyDamped == MassSpringDamper(1.0, 1.0, 20.0)
    ensures !IsCriticallyDamped(ControlledCriticallyDamped)
    ensures ControlledCriticallyDamped.damperConstant * ControlledCriticallyDamped.damperConstant
      > 4.0 * ControlledCriticallyDamped.mass * ControlledCriticallyDamped.springConstant
    ensures IntendedCriticallyDamped == MassSpringDamper(1.0, 100.0, 20.0)
    ensures IsCriticallyDamped(IntendedCriticallyDamped)
  {
    CriticallyDampedAsWrittenIsNotCritical(10.0);
    CorrectedMakerIsCritical(10.0);
  }

  // ---------------------------------------------------------------------------
  // Elastic boundaries and constrain
  // ---------------------------------------------------------------------------

  /**
   * `constraints.elasticBoundaries(lower, upper, bounceConstant)`. An absent
   * bound is infinite and an absent bounce constant is 0.8; absence is decided
   * by `typeof`, so 0 is a present value.
   */
  datatype ElasticBoundaries = ElasticBoundaries(lower: Option<real>, upper: Option<real>,
                                                 bounceConstant: Option<real>)
  {
    function Bounce(): real {
      if bounceConstant.Some? then bounceConstant.value else 0.8
    }

    predicate BelowLower(x: real) {
      lower.Some? && x < lower.value
    }

    predicate AboveUpper(x: real) {
      upper.Some? && x > upper.value
    }

    predicate Inside(x: real) {
      !BelowLower(x) && !AboveUpper(x)
    }

    /** The bounds are ordered (an absent bound is ordered with anything). */
    predicate Ordered() {
      lower.Some? && upper.Some? ==> lower.value <= upper.value
    }
  }

  /** The effect of one elastic-boundary constraint on a record. */
  function ElasticState(c: ElasticBoundaries, s: BodyState): BodyState {
    if c.Inside(s.value) then s
    else
      var b := if c.BelowLower(s.value) then c.lower.value else c.upper.value;
      var slow := Abs(s.velocity) < 1.0;
      var stop := Abs(s.velocity) < 0.05;
      var a := if stop then 0.0 else if slow then s.acceleration * s.acceleration * s.velocity
               else s.acceleration;
      var v := if stop then 0.0 else s.velocity;
      s.(value := b, acceleration := a, velocity := -c.Bounce() * v)
  }

  method ApplyElastic(c: ElasticBoundaries, o: Body)
    modifies o
    ensures o.State() == ElasticState(c, old(o.State()))
  {
    var b: Option<real> := if c.BelowLower(o.value) then c.lower
                           else if c.AboveUpper(o.value) then c.upper
                           else None;
    if b.Some? {
      o.value := b.value;
      if Abs(o.velocity) < 1.0 {
        o.acceleration := o.acceleration * o.acceleration * o.velocity;
        if Abs(o.velocity) < 0.05 {
          o.acceleration := 0.0;
          o.velocity := 0.0;
        }
      }
      o.velocity := -c.Bounce() * o.velocity;
    }
  }

  /**
   * Inside the bounds the constraint changes nothing. Outside, the value is put
   * on the violated bound and the velocity reflected and scaled by the bounce
   * constant, or zeroed when it is below 0.05. A slow record (|v| < 1) has its
   * acceleration damped to a^2 v, or zeroed below 0.05. With ordered bounds the result is
   * inside them, so applying the constraint twice is applying it once.
   */
  lemma ElasticBoundariesFacts(c: ElasticBoundaries, s: BodyState)
    ensures c.Inside(s.value) ==> ElasticState(c, s) == s
    ensures !c.Inside(s.value) ==>
      var r := ElasticState(c, s);
      && (c.BelowLower(s.value) ==> r.value == c.lower.value)
      && (!c.BelowLower(s.value) ==> r.value == c.upper.value)
      && (Abs(s.velocity) < 0.05 ==> r.velocity == 0.0 && r.acceleration == 0.0)
      && (Abs(s.velocity) >= 0.05 ==> r.velocity == -c.Bounce() * s.velocity)
      && (0.05 <= Abs(s.velocity) < 1.0 ==> r.acceleration == s.acceleration * s.acceleration * s.velocity)
      && (Abs(s.velocity) >= 1.0 ==> r.acceleration == s.acceleration)
      && r.endValue == s.endValue && r.finished == s.finished
    ensures c.Ordered() ==> c.Inside(ElasticState(c, s).value)
    ensures c.Ordered() ==> ElasticState(c, ElasticState(c, s)) == ElasticState(c, s)
  {
  }

  /** The constraints applied in array order. */
  function ApplyAll(cs: seq<ElasticBoundaries>, s: BodyState): BodyState {
    if cs == [] then s else ElasticState(cs[|cs| - 1], ApplyAll(cs[..|cs| - 1], s))
  }

  /** A record inside the bounds of every constraint passes through unchanged. */
  lemma {:induction false} ApplyAllInside(cs: seq<ElasticBoundaries>, s: BodyState)
    requires forall i :: 0 <= i < |cs| ==> cs[i].Inside(s.value)
    ensures ApplyAll(cs, s) == s
  {
    if cs != [] {
      var init := cs[..|cs| - 1];
      assert forall i :: 0 <= i < |init| ==> init[i].Inside(s.value) by {
        forall i | 0 <= i < |init| ensures init[i].Inside(s.value) {
          assert init[i] == cs[i];
        }
      }
      ApplyAllInside(init, s);
    }
  }

  /** The last constraint in the array with ordered bounds has the final say. */
  lemma ApplyAllRespectsLast(cs: seq<ElasticBoundaries>, s: BodyState)
    requires cs != [] && cs[|cs| - 1].Ordered()
    ensures cs[|cs| - 1].Inside(ApplyAll(cs, s).value)
  {
    ElasticBoundariesFacts(cs[|cs| - 1], ApplyAll(cs[..|cs| - 1], s));
  }

  /** What the step function returned by `constrain` hands back. */
  datatype Outcome = Record(body: Body) | Undefined | Thrown

  /**
   * The step function returned by `helpers.constrain(simulation, constraints)`:
   * the simulation step first, then each constraint once in array order, and the
   * same record back. Under `nothing` the step returns undefined, and the first
   * constraint then fails reading a field of undefined.
   */
  method Constrain(sim: Simulation, constraints: seq<ElasticBoundaries>, obj: Body, dt: real)
    returns (r: Outcome)
    requires Defined(sim)
    modifies obj
    ensures sim.Nothing? ==>
      && obj.State() == SimulateState(sim, old(obj.State()), dt, obj.endCondition)
      && r == (if constraints == [] then Undefined else Thrown)
    ensures !sim.Nothing? ==>
      && r == Record(obj)
      && obj.State() == ApplyAll(constraints, SimulateState(sim, old(obj.State()), dt, obj.endCondition))
  {
    var o := Simulate(sim, obj, dt);
    if o.None? {
      r := if constraints == [] then Undefined else Thrown;
      return;
    }
    ghost var s0 := obj.State();
    for i := 0 to |constraints|
      invariant obj.State() == ApplyAll(constraints[..i], s0)
    {
      ApplyElastic(constraints[i], o.value);
      assert constraints[..i + 1][..i] == constraints[..i];
    }
    assert constraints[..|constraints|] == constraints;
    r := Record(o.value);
  }
}
