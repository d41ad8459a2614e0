/**
 * The advance helper of the simulation library. Its builders (critically, over-
 * and under-damped, the oscillator dispatch, the mass-spring-damper and decay)
 * are the same expressions as the physical library's and are modelled once, by
 * the Physical module.
 */
module Simulation {
  import opened Numeric
  import opened Records
  import Physical

  /**
   * The state left by one call of the closure from `helpers.advanceAnimation(
   * startTime, endValue, fn)` with step `dt` at time `now`: the trajectory is
   * sampled at the raw elapsed time, the velocity is measured over the step the
   * caller supplies, and the time of the last step is not recorded.
   */
  function StepState(startTime: real, endValue: real, fn: real -> real,
                     s: AnimState, dt: real, now: real): AnimState
    requires dt != 0.0
  {
    var v := fn(now - startTime);
    var velocity := (v - s.value) / dt;
    if Abs(velocity) <= Physical.Tolerance && Abs(v - endValue) <= Physical.Tolerance
    then AnimState(endValue, velocity, s.lastTime, true)
    else AnimState(v, velocity, s.lastTime, s.finished)
  }

  method AdvanceAnimation(anim: Anim, startTime: real, endValue: real, fn: real -> real,
                          dt: real, now: real)
    returns (r: Anim)
    requires dt != 0.0
    modifies anim
    ensures r == anim
    ensures anim.State() == StepState(startTime, endValue, fn, old(anim.State()), dt, now)
  {
    var timePassed := now - startTime;
    var newValue := fn(timePassed);
    anim.velocity := (newValue - anim.value) / dt;
    anim.value := newValue;
    if Abs(anim.velocity) <= Physical.Tolerance && Abs(anim.value - endValue) <= Physical.Tolerance {
      anim.value := endValue;
      anim.finished := true;
    }
    r := anim;
  }

  /**
   * A step's velocity times dt is the change of value it sampled; it finishes
   * onto the end value exactly when sample and velocity are within tolerance,
   * never clears the finished flag and leaves the last-step time alone.
   */
  lemma StepSettles(startTime: real, endValue: real, fn: real -> real,
                    s: AnimState, dt: real, now: real)
    requires dt != 0.0
    ensures var r := StepState(startTime, endValue, fn, s, dt, now);
      var sample := fn(now - startTime);
      && r.lastTime == s.lastTime
      && r.velocity * dt == sample - s.value
      && (s.finished ==> r.finished)
      && (Abs(r.velocity) <= Physical.Tolerance && Abs(sample - endValue) <= Physical.Tolerance ==>
            r.value == endValue && r.finished)
      && (!(Abs(r.velocity) <= Physical.Tolerance && Abs(sample - endValue) <= Physical.Tolerance) ==>
            r.value == sample && r.finished == s.finished)
  {
  }

  /**
   * The simulation helper against the physical helper, given the same trajectory
   * in the time unit each samples (milliseconds here, seconds there) and
   * dt = now - lastTime. The physical velocity is the same velocity in units per
   * second, and only the physical helper records the time of the step. Both
   * apply the same tolerance to velocities in different units, so the two agree
   * only in part: when the physical helper finishes, so does this one; when the
   * velocity is within the tolerance in units per second too, both finish; and
   * while this one has not finished, both hold the same sampled value. A velocity
   * between 1e-7 and 1e-4 per millisecond finishes here but not there.
   */
  lemma {:induction false} AgreesWithPhysical(startTime: real, endValue: real, fn: real -> real,
                                              s: AnimState, now: real)
    requires now != s.lastTime
    ensures var sim := StepState(startTime, endValue, t => fn(t / 1000.0), s, now - s.lastTime, now);
      var phy := Physical.AdvanceAnimationState(startTime, endValue, fn, s, now);
      && phy.velocity == sim.velocity * 1000.0
      && phy.lastTime == now && sim.lastTime == s.lastTime
      && (phy.finished ==> sim.finished)
      && (Abs(sim.velocity) <= Physical.Tolerance / 1000.0 &&
          Abs(fn((now - startTime) / 1000.0) - endValue) <= Physical.Tolerance ==>
            sim.finished && phy.finished)
      && (sim.value == phy.value || sim.finished)
  {
    var sim := StepState(startTime, endValue, t => fn(t / 1000.0), s, now - s.lastTime, now);
    var phy := Physical.AdvanceAnimationState(startTime, endValue, fn, s, now);
    assert Abs(phy.velocity) == Abs(sim.velocity) * 1000.0;
  }

  /**
   * The tolerances disagree: a record 5e-5 below the end, stepped onto it over one
   * millisecond, finishes in this helper (5e-5 per millisecond) but not in the
   * physical one (0.05 per second).
   */
  lemma UnitsDisagree()
    ensures var s := AnimState(-0.00005, 0.0, 0.0, false);
      var sim := StepState(0.0, 0.0, t => 0.0, s, 1.0, 1.0);
      var phy := Physical.AdvanceAnimationState(0.0, 0.0, t => 0.0, s, 1.0);
      sim.finished && !phy.finished
  {
  }
}
