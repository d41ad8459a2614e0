/**
 * The older Verlet model of `model.jsx`. It shares the record, its stop
 * predicates, the spring, damper, air-drag and gravity laws and the
 * mass-spring-damper makers with `model.js` (modelled in ModelJs); it differs in
 * the Verlet step, which never stores the new acceleration, in the
 * restrict/resolve constraints, in the friction force and in a fluid drag that
 * ignores the sign of the velocity.
 */
module ModelJsx {
  import opened Numeric
  import opened ModelJs

  // ---------------------------------------------------------------------------
  // Verlet integration with a stale acceleration
  // ---------------------------------------------------------------------------

  /** The half-step update of value and velocity; the acceleration field is kept. */
  function KickKeepingAcceleration(s: BodyState, newA: real, dt: real): BodyState {
    var halfV := s.velocity + 0.5 * s.acceleration * dt;
    s.(value := s.value + halfV * dt, velocity := halfV + 0.5 * newA * dt)
  }

  /** `verletIntegration(obj, newA, dt)` of model.jsx: the update, then the end condition. */
  function VerletState(s: BodyState, newA: real, dt: real, c: EndCondition): BodyState {
    var r := EndCheck(c, KickKeepingAcceleration(s, newA, dt));
    if r.0 then r.1.(finished := true) else r.1
  }

  method VerletIntegration(obj: Body, newA: real, dt: real) returns (r: Body)
    modifies obj
    ensures r == obj
    ensures obj.State() == VerletState(old(obj.State()), newA, dt, obj.endCondition)
  {
    var x := obj.value;
    var v := obj.velocity;
    var a := obj.acceleration;
    ghost var s0 := obj.State();
    var halfV := v + 0.5 * a * dt;
    obj.value := x + halfV * dt;
    obj.velocity := halfV + 0.5 * newA * dt;
    assert obj.State() == KickKeepingAcceleration(s0, newA, dt);
    var holds := CheckEnd(obj);
    if holds {
      obj.finished := true;
    }
    r := obj;
  }

  /**
   * One step of the older integrator moves by v dt + a dt^2 / 2 with the stored
   * acceleration a (unless a controlled stop snaps the value), changes the
   * velocity by the mean of the stored and new accelerations, leaves the stored
   * acceleration as it was, and marks the record finished exactly when it was or
   * the end condition holds after the update.
   */
  lemma VerletStep(s: BodyState, newA: real, dt: real, c: EndCondition)
    ensures var r := VerletState(s, newA, dt, c);
      && r.acceleration == s.acceleration
      && r.velocity == s.velocity + (s.acceleration + newA) / 2.0 * dt
      && (!c.StopControlled? ==> r.value == s.value + s.velocity * dt + s.acceleration * dt * dt / 2.0)
      && (c.StopControlled? ==>
            r.value == s.value + s.velocity * dt + s.acceleration * dt * dt / 2.0 || r.value == s.endValue)
      && r.endValue == s.endValue
      && (r.finished <==> s.finished || EndCheck(c, KickKeepingAcceleration(s, newA, dt)).0)
  {
  }

  /** n steps of the older integrator under the same acceleration a. */
  function Steps(s: BodyState, n: nat, a: real, dt: real, c: EndCondition): BodyState {
    if n == 0 then s else VerletState(Steps(s, n - 1, a, dt, c), a, dt, c)
  }

  /** n bare updates of the older integrator, with no end condition. */
  function Kicks(s: BodyState, n: nat, a: real, dt: real): BodyState {
    if n == 0 then s else KickKeepingAcceleration(Kicks(s, n - 1, a, dt), a, dt)
  }

  lemma KickKeepsSameMotion(p: BodyState, q: BodyState, a: real, dt: real)
    requires SameMotion(p, q)
    ensures SameMotion(KickKeepingAcceleration(p, a, dt), KickKeepingAcceleration(q, a, dt))
  {
  }

  /** Under an end condition that does not snap, the steps only add the finished flag. */
  lemma {:induction false} StepsFollowKicks(s: BodyState, n: nat, a: real, dt: real, c: EndCondition)
    requires !c.StopControlled?
    ensures SameMotion(Steps(s, n, a, dt, c), Kicks(s, n, a, dt))
  {
    if n > 0 {
      StepsFollowKicks(s, n - 1, a, dt, c);
      var p := Steps(s, n - 1, a, dt, c);
      EndConditions(c, KickKeepingAcceleration(p, a, dt));
      KickKeepsSameMotion(p, Kicks(s, n - 1, a, dt), a, dt);
    }
  }

  /** From a record whose stored acceleration is 0, the bare updates gain only a/2 per unit time. */
  lemma {:induction false} KicksGainHalf(s: BodyState, n: nat, a: real, dt: real)
    requires s.acceleration == 0.0
    ensures GainsVelocity(Kicks(s, n, a, dt), s.velocity, a / 2.0, Elapsed(n, dt))
    ensures Kicks(s, n, a, dt).acceleration == 0.0
  {
    if n == 0 {
      assert Elapsed(n, dt) == 0.0;
      assert a / 2.0 * 0.0 == 0.0;
    } else {
      KicksGainHalf(s, n - 1, a, dt);
      var p := Kicks(s, n - 1, a, dt);
      GainStep(p, s.velocity, a, Elapsed(n - 1, dt), dt);
      assert Kicks(s, n, a, dt) == KickKeepingAcceleration(p, a, dt);
      assert Elapsed(n, dt) == Elapsed(n - 1, dt) + dt;
    }
  }

  /** One more bare update of dt from a record with no stored acceleration gains a dt / 2. */
  lemma GainStep(p: BodyState, v0: real, a: real, T0: real, dt: real)
    requires p.acceleration == 0.0 && GainsVelocity(p, v0, a / 2.0, T0)
    ensures GainsVelocity(KickKeepingAcceleration(p, a, dt), v0, a / 2.0, T0 + dt)
    ensures KickKeepingAcceleration(p, a, dt).acceleration == 0.0
  {
    assert p.velocity + 0.5 * 0.0 * dt == p.velocity;
    assert 0.5 * a * dt == a / 2.0 * dt;
    assert a / 2.0 * (T0 + dt) == a / 2.0 * T0 + a / 2.0 * dt;
  }

  lemma GainsTransfer(p: BodyState, q: BodyState, v0: real, a: real, T: real)
    requires SameMotion(p, q) && GainsVelocity(q, v0, a, T)
    ensures GainsVelocity(p, v0, a, T)
  {
  }

  /**
   * Because the acceleration is never stored, a record starting with acceleration
   * 0 under a constant acceleration a gains velocity a T / 2 over the time T,
   * half of what uniformly accelerated motion gains; the integrator of model.js,
   * from a record already accelerating at a, gains a T.
   */
  lemma {:induction false} StaleAccelerationGainsHalf(s: BodyState, n: nat, a: real, dt: real,
                                                      c: EndCondition)
    requires s.acceleration == 0.0 && !c.StopControlled?
    ensures GainsVelocity(Steps(s, n, a, dt, c), s.velocity, a / 2.0, Elapsed(n, dt))
    ensures GainsVelocity(ModelJs.Steps(s.(acceleration := a), n, a, dt, c), s.velocity, a, Elapsed(n, dt))
  {
    StepsFollowKicks(s, n, a, dt, c);
    KicksGainHalf(s, n, a, dt);
    GainsTransfer(Steps(s, n, a, dt, c), Kicks(s, n, a, dt), s.velocity, a / 2.0, Elapsed(n, dt));
    var s' := s.(acceleration := a);
    ModelJs.ConstantAccelerationIsExact(s', n, a, dt, c);
    ModelJs.ParabolaVelocity(ModelJs.Steps(s', n, a, dt, c), s'.value, s'.velocity, a, Elapsed(n, dt));
    assert s'.velocity == s.velocity;
  }

  // ---------------------------------------------------------------------------
  // Forces that differ from model.js
  // ---------------------------------------------------------------------------

  /** `forces.friction(μ)`: a constant force against the motion, none at rest. */
  function Friction(frictionCoefficient: real, v: real): real {
    if v > 0.0 then -frictionCoefficient
    else if v < 0.0 then frictionCoefficient
    else 0.0
  }

  /** With a positive coefficient friction opposes any motion with magnitude μ. */
  lemma FrictionOpposes(mu: real, v: real)
    requires 0.0 < mu
    ensures v != 0.0 ==> Friction(mu, v) * v < 0.0 && Abs(Friction(mu, v)) == mu
    ensures v == 0.0 ==> Friction(mu, v) == 0.0
  {
  }

  /** `forces.fluidDrag(c)` of model.jsx as written: -c v^2 whatever the sign of v. */
  function FluidDragAsWritten(dragConstant: real, v: real): real {
    -dragConstant * v * v
  }

  /**
   * The fluid drag of model.jsx agrees with the sign-aware drag of model.js for
   * non-negative velocities, but for a negative velocity it is the opposite of
   * that drag, which opposes motion, so it pushes along the motion: with c = 5
   * and v = -1 it is -5.
   */
  lemma FluidDragAsWrittenPushesAlong(dragConstant: real, s: BodyState)
    ensures s.velocity >= 0.0 ==> FluidDragAsWritten(dragConstant, s.velocity) == FluidDragForce(dragConstant, s)
    ensures s.velocity < 0.0 ==> FluidDragAsWritten(dragConstant, s.velocity) == -FluidDragForce(dragConstant, s)
    ensures FluidDragAsWritten(5.0, -1.0) == -5.0
  {
  }

  // ---------------------------------------------------------------------------
  // Simulations and constrain
  // ---------------------------------------------------------------------------

  /** model.jsx offers the mass-spring-damper and gravity step functions. */
  predicate Offered(sim: Simulation) {
    (sim.MassSpringDamper? && sim.mass != 0.0) || sim.Gravity?
  }

  function SimulateState(sim: Simulation, s: BodyState, dt: real, c: EndCondition): BodyState
    requires Offered(sim)
  {
    VerletState(s, Acceleration(sim, s), dt, c)
  }

  method Simulate(sim: Simulation, obj: Body, dt: real) returns (r: Body)
    requires Offered(sim)
    modifies obj
    ensures r == obj
    ensures obj.State() == SimulateState(sim, old(obj.State()), dt, obj.endCondition)
  {
    var newA: real;
    if sim.MassSpringDamper? {
      newA := (SpringForce(sim.springConstant, obj.State()) + DamperForce(sim.damperConstant, obj.State())) / sim.mass;
    } else {
      newA := GravityForce(sim.g, obj.State());
    }
    r := VerletIntegration(obj, newA, dt);
  }

  const ControlledUnderDamped: Simulation := DampedHarmonicOscillator(20.0, 0.7)
  const ControlledOverDamped: Simulation := DampedHarmonicOscillator(20.0, 1.3)
  /** The `criticallyDamped` preset, built by the maker as written. */
  const ControlledCriticallyDamped: Simulation := CriticallyDampedAsWritten(20.0)
  /** The preset the name promises, built by the corrected maker. */
  const IntendedCriticallyDamped: Simulation := CriticallyDamped(20.0)

  /**
   * The presets of model.jsx, at frequency 20: the `criticallyDamped` preset,
   * built by the maker as written, is the over-damped `massSpringDamper(1, 1, 40)`;
   * only the corrected maker gives the critical `massSpringDamper(1, 400, 40)`.
   */
  lemma {:induction false} Presets()
    ensures ControlledUnderDamped == MassSpringDamper(1.0, 400.0, 28.0)
    ensures ControlledOverDamped == MassSpringDamper(1.0, 400.0, 52.0)
    ensures ControlledCriticallyDamped == MassSpringDamper(1.0, 1.0, 40.0)
    ensures !IsCriticallyDamped(ControlledCriticallyDamped)
    ensures ControlledCriticallyDamped.damperConstant * ControlledCriticallyDamped.damperConstant
      > 4.0 * ControlledCriticallyDamped.mass * ControlledCriticallyDamped.springConstant
    ensures IntendedCriticallyDamped == MassSpringDamper(1.0, 400.0, 40.0)
    ensures IsCriticallyDamped(IntendedCriticallyDamped)
  {
    ModelJs.CriticallyDampedAsWrittenIsNotCritical(20.0);
    ModelJs.CorrectedMakerIsCritical(20.0);
  }

  /**
   * A constraint of model.jsx: a test and a correction, host callbacks on the
   * record that are modelled as functions of its state.
   */
  datatype Constraint = Constraint(restrict: BodyState -> bool, resolve: BodyState -> BodyState)

  /** The constraints in array order, each resolving only where its test holds. */
  function ConstrainState(cs: seq<Constraint>, s: BodyState): BodyState {
    if cs == [] then s
    else
      var p := ConstrainState(cs[..|cs| - 1], s);
      var c := cs[|cs| - 1];
      if c.restrict(p) then c.resolve(p) else p
  }

  /** Running two arrays of constraints one after the other is running their concatenation. */
  lemma {:induction false} ConstrainStateConcat(cs1: seq<Constraint>, cs2: seq<Constraint>, s: BodyState)
    ensures ConstrainState(cs1 + cs2, s) == ConstrainState(cs2, ConstrainState(cs1, s))
  {
    if cs2 == [] {
      assert cs1 + cs2 == cs1;
    } else {
      var init := cs2[..|cs2| - 1];
      ConstrainStateConcat(cs1, init, s);
      assert (cs1 + cs2)[..|cs1 + cs2| - 1] == cs1 + init;
      assert (cs1 + cs2)[|cs1 + cs2| - 1] == cs2[|cs2| - 1];
    }
  }

  /** A record no constraint objects to passes through unchanged. */
  lemma {:induction false} ConstrainStateUnrestricted(cs: seq<Constraint>, s: BodyState)
    requires forall i :: 0 <= i < |cs| ==> !cs[i].restrict(s)
    ensures ConstrainState(cs, s) == s
  {
    if cs != [] {
      var init := cs[..|cs| - 1];
      assert forall i :: 0 <= i < |init| ==> !init[i].restrict(s) by {
        forall i | 0 <= i < |init| ensures !init[i].restrict(s) {
          assert init[i] == cs[i];
        }
      }
      ConstrainStateUnrestricted(init, s);
    }
  }

  /** Overwrites the record with the state a host callback produced. */
  method Store(o: Body, s: BodyState)
    modifies o
    ensures o.State() == s
  {
    o.value := s.value;
    o.velocity := s.velocity;
    o.acceleration := s.acceleration;
    o.endValue := s.endValue;
    o.finished := s.finished;
  }

  /**
   * The step function returned by `helpers.constrain(simulation, constraints)`
   * of model.jsx: the simulation step, then each constraint in array order,
   * resolving where its test holds. It returns nothing.
   */
  method Constrain(sim: Simulation, constraints: seq<Constraint>, obj: Body, dt: real)
    requires Offered(sim)
    modifies obj
    ensures obj.State() == ConstrainState(constraints, SimulateState(sim, old(obj.State()), dt, obj.endCondition))
  {
    var o := Simulate(sim, obj, dt);
    ghost var s0 := o.State();
    for i := 0 to |constraints|
      invariant o == obj
      invariant o.State() == ConstrainState(constraints[..i], s0)
    {
      var cont := constraints[i];
      assert constraints[..i + 1][..i] == constraints[..i];
      if cont.restrict(o.State()) {
        Store(o, cont.resolve(o.State()));
      }
    }
    assert constraints[..|constraints|] == constraints;
  }
}
