/**
 * Closed-form trajectories of a damped harmonic oscillator and of exponential
 * decay: builders that solve for the coefficients from the start value, end
 * value and start velocity, and the advance helper that samples such a
 * trajectory once per frame.
 */
module Physical {
  import opened Numeric
  import opened Records

  /**
   * A trajectory: a closed-form function of the time t in seconds, with the
   * coefficients the builders computed.
   */
  datatype Trajectory =
    | CriticallyDamped(a: real, b: real, frequency: real, endValue: real)
      // (a + b t) e^(-frequency t) + endValue
    | OverDamped(a: real, b: real, y1: real, y2: real, endValue: real)
      // a e^(y1 t) + b e^(y2 t) + endValue
    | UnderDamped(a: real, b: real, damping: real, frequency: real, wd: real, endValue: real)
      // e^(-damping frequency t) (a cos(wd t) + b sin(wd t)) + endValue
    | Decaying(n0: real, lambda: real, endValue: real)
      // n0 e^(-lambda t) + endValue
    | Constant(endValue: real)

  function Value(F: Transcendental, tr: Trajectory, t: real): real {
    match tr
    case CriticallyDamped(a, b, w, e) => (a + b * t) * F.exp(-w * t) + e
    case OverDamped(a, b, y1, y2, e) => a * F.exp(y1 * t) + b * F.exp(y2 * t) + e
    case UnderDamped(a, b, z, w, wd, e) =>
      F.exp(-z * w * t) * (a * F.cos(wd * t) + b * F.sin(wd * t)) + e
    case Decaying(n0, l, e) => n0 * F.exp(-l * t) + e
    case Constant(e) => e
  }

  /**
   * The time derivative of Value, by the rules exp' = exp, sin' = cos and
   * cos' = -sin applied to each closed form.
   */
  function Derivative(F: Transcendental, tr: Trajectory, t: real): real {
    match tr
    case CriticallyDamped(a, b, w, e) => b * F.exp(-w * t) - w * (a + b * t) * F.exp(-w * t)
    case OverDamped(a, b, y1, y2, e) => a * y1 * F.exp(y1 * t) + b * y2 * F.exp(y2 * t)
    case UnderDamped(a, b, z, w, wd, e) =>
      F.exp(-z * w * t) * ((wd * b - z * w * a) * F.cos(wd * t) - (wd * a + z * w * b) * F.sin(wd * t))
    case Decaying(n0, l, e) => -l * n0 * F.exp(-l * t)
    case Constant(e) => 0.0
  }

  /** A trajectory meets its boundary conditions when it starts at x0 with slope v0. */
  ghost predicate MatchesStart(F: Transcendental, tr: Trajectory, x0: real, v0: real) {
    Value(F, tr, 0.0) == x0 && Derivative(F, tr, 0.0) == v0
  }

  // ---------------------------------------------------------------------------
  // Coefficient builders
  // ---------------------------------------------------------------------------

  /** The function returned by `makeCriticallyDamped(frequency)`, applied. */
  function MakeCriticallyDamped(frequency: real, startValue: real, endValue: real,
                                startVelocity: real): Trajectory
  {
    var a := startValue - endValue;
    var b := a * frequency + startVelocity;
    CriticallyDamped(a, b, frequency, endValue)
  }

  /**
   * The function returned by `makeOverDamped(frequency, damping)`, applied. None
   * when the two rates coincide and the source divides by zero.
   */
  function MakeOverDamped(F: Transcendental, frequency: real, damping: real, startValue: real,
                          endValue: real, startVelocity: real): (r: Option<Trajectory>)
    ensures r.Some? <==> frequency * F.sqrt(damping * damping - 1.0) != 0.0
  {
    var temp := F.sqrt(damping * damping - 1.0);
    var y1 := frequency * (temp - damping);
    var y2 := frequency * (-temp - damping);
    var x0 := startValue - endValue;
    assert y2 - y1 == -2.0 * (frequency * temp);
    if y2 - y1 == 0.0 then None
    else
      var a := x0 + (y1 * x0 - startVelocity) / (y2 - y1);
      var b := -(y1 * x0 - startVelocity) / (y2 - y1);
      Some(OverDamped(a, b, y1, y2, endValue))
  }

  /**
   * The function returned by `makeUnderDamped(frequency, damping)`, applied. None
   * when the damped frequency is 0 and the source divides by zero.
   */
  function MakeUnderDamped(F: Transcendental, frequency: real, damping: real, startValue: real,
                           endValue: real, startVelocity: real): (r: Option<Trajectory>)
    ensures r.Some? <==> frequency * F.sqrt(1.0 - damping * damping) != 0.0
  {
    var wd := frequency * F.sqrt(1.0 - damping * damping);
    var a := startValue - endValue;
    if wd == 0.0 then None
    else
      var b := 1.0 / wd * (damping * frequency * a + startVelocity);
      Some(UnderDamped(a, b, damping, frequency, wd, endValue))
  }

  /** The builder closures that `makeDampedHarmonicOscillator` chooses between. */
  datatype Builder =
    | CriticalBuilder(frequency: real)
    | OverBuilder(frequency: real, damping: real)
    | UnderBuilder(frequency: real, damping: real)

  /** Calls a builder closure with the boundary conditions. */
  function Build(F: Transcendental, builder: Builder, startValue: real, endValue: real,
                 startVelocity: real): Option<Trajectory>
  {
    match builder
    case CriticalBuilder(w) => Some(MakeCriticallyDamped(w, startValue, endValue, startVelocity))
    case OverBuilder(w, z) => MakeOverDamped(F, w, z, startValue, endValue, startVelocity)
    case UnderBuilder(w, z) => MakeUnderDamped(F, w, z, startValue, endValue, startVelocity)
  }

  /** `makeDampedHarmonicOscillator`: the regime is chosen by comparing damping with 1. */
  function MakeDampedHarmonicOscillator(frequency: real, damping: real): (r: Builder)
    ensures r.UnderBuilder? <==> damping < 1.0
    ensures r.CriticalBuilder? <==> damping == 1.0
    ensures r.OverBuilder? <==> damping > 1.0
    ensures r.frequency == frequency
    ensures !r.CriticalBuilder? ==> r.damping == damping
  {
    if damping < 1.0 then UnderBuilder(frequency, damping)
    else if damping == 1.0 then CriticalBuilder(frequency)
    else OverBuilder(frequency, damping)
  }

  /**
   * `makeMassSpringDamper(m, k, c)`: frequency sqrt(k/m) and damping ratio
   * c / (2 sqrt(m k)). None when m = 0 or sqrt(m k) = 0, where the source divides
   * by zero.
   */
  function MakeMassSpringDamper(F: Transcendental, mass: real, springConstant: real,
                                damperConstant: real): (r: Option<Builder>)
    ensures r.Some? <==> mass != 0.0 && F.sqrt(mass * springConstant) != 0.0
  {
    if mass == 0.0 || F.sqrt(mass * springConstant) == 0.0 then None
    else Some(MakeDampedHarmonicOscillator(F.sqrt(springConstant / mass),
                                           damperConstant / (2.0 * F.sqrt(mass * springConstant))))
  }

  /**
   * `decay(startValue, endValue, startVelocity)`: exponential decay at rate
   * lambda = startVelocity / (endValue - startValue) when that rate is positive,
   * otherwise the constant endValue. When endValue = startValue the rate is not
   * finite: for a positive start velocity it is +Infinity, which passes the test
   * and makes the trajectory NaN at t = 0 (None here); otherwise it is NaN or
   * -Infinity, which fail the test and give the constant.
   */
  function Decay(startValue: real, endValue: real, startVelocity: real): (r: Option<Trajectory>)
    ensures r.None? <==> endValue == startValue && startVelocity > 0.0
  {
    if endValue == startValue then
      if startVelocity > 0.0 then None else Some(Constant(endValue))
    else
      var lambda := startVelocity / (endValue - startValue);
      var n0 := startValue - endValue;
      if lambda > 0.0 then Some(Decaying(n0, lambda, endValue)) else Some(Constant(endValue))
  }

  // The preset oscillators.
  const UnderDampedPreset: Builder := MakeDampedHarmonicOscillator(10.0, 0.3)
  const CriticalDampedPreset: Builder := MakeDampedHarmonicOscillator(10.0, 1.0)
  const OverDampedPreset: Builder := MakeDampedHarmonicOscillator(10.0, 1.5)

  lemma PresetRegimes()
    ensures UnderDampedPreset == UnderBuilder(10.0, 0.3)
    ensures CriticalDampedPreset == CriticalBuilder(10.0)
    ensures OverDampedPreset == OverBuilder(10.0, 1.5)
  {
  }

  // ---------------------------------------------------------------------------
  // Boundary conditions
  // ---------------------------------------------------------------------------

  /** Critically damped: starts at x0 with slope b - frequency a = v0. */
  lemma {:induction false} CriticallyDampedMatchesStart(F: Transcendental, frequency: real,
                                                        x0: real, xe: real, v0: real)
    requires F.Valid()
    ensures MatchesStart(F, MakeCriticallyDamped(frequency, x0, xe, v0), x0, v0)
  {
    assert -frequency * 0.0 == 0.0;
  }

  /** Over-damped: the coefficients satisfy a + b = x0 - xe and a y1 + b y2 = v0. */
  lemma {:induction false} OverDampedMatchesStart(F: Transcendental, frequency: real, damping: real,
                                                  x0: real, xe: real, v0: real)
    requires F.Valid()
    requires MakeOverDamped(F, frequency, damping, x0, xe, v0).Some?
    ensures var tr := MakeOverDamped(F, frequency, damping, x0, xe, v0).value;
      tr.a + tr.b == x0 - xe && tr.a * tr.y1 + tr.b * tr.y2 == v0
    ensures MatchesStart(F, MakeOverDamped(F, frequency, damping, x0, xe, v0).value, x0, v0)
  {
    var tr := MakeOverDamped(F, frequency, damping, x0, xe, v0).value;
    var y1, y2, d := tr.y1, tr.y2, tr.y2 - tr.y1;
    var n := y1 * (x0 - xe) - v0;
    var q := n / d;
    assert tr.a == (x0 - xe) + q && tr.b == -q;
    assert tr.a * y1 + tr.b * y2 == (x0 - xe) * y1 - q * d;
    assert q * d == n;
    assert y1 * 0.0 == 0.0 && y2 * 0.0 == 0.0;
  }

  /** Under-damped: starts at x0 with slope -damping frequency a + wd b = v0. */
  lemma {:induction false} UnderDampedMatchesStart(F: Transcendental, frequency: real, damping: real,
                                                   x0: real, xe: real, v0: real)
    requires F.Valid()
    requires MakeUnderDamped(F, frequency, damping, x0, xe, v0).Some?
    ensures var tr := MakeUnderDamped(F, frequency, damping, x0, xe, v0).value;
      -damping * frequency * tr.a + tr.wd * tr.b == v0
    ensures MatchesStart(F, MakeUnderDamped(F, frequency, damping, x0, xe, v0).value, x0, v0)
  {
    var tr := MakeUnderDamped(F, frequency, damping, x0, xe, v0).value;
    var wd := tr.wd;
    var m := damping * frequency * tr.a + v0;
    assert tr.b == 1.0 / wd * m;
    assert wd * tr.b == m;
    assert -damping * frequency * 0.0 == 0.0 && wd * 0.0 == 0.0;
  }

  /** Over-damped coefficients exist whenever damping > 1 and frequency != 0. */
  lemma {:induction false} OverDampedDefined(F: Transcendental, frequency: real, damping: real,
                                             x0: real, xe: real, v0: real)
    requires F.Valid() && 1.0 < damping && frequency != 0.0
    ensures MakeOverDamped(F, frequency, damping, x0, xe, v0).Some?
  {
    assert damping * damping > 1.0 * 1.0;
    SqrtPositive(F, damping * damping - 1.0);
  }

  /** Under-damped coefficients exist whenever 0 <= damping < 1 and frequency != 0. */
  lemma {:induction false} UnderDampedDefined(F: Transcendental, frequency: real, damping: real,
                                              x0: real, xe: real, v0: real)
    requires F.Valid() && 0.0 <= damping < 1.0 && frequency != 0.0
    ensures MakeUnderDamped(F, frequency, damping, x0, xe, v0).Some?
  {
    assert damping * damping <= damping * 1.0;
    SqrtPositive(F, 1.0 - damping * damping);
  }

  /**
   * Every oscillator with a positive damping ratio and a non-zero frequency
   * yields a trajectory that starts at x0 with slope v0, whichever regime it
   * dispatches to.
   */
  lemma {:induction false} OscillatorMatchesStart(F: Transcendental, frequency: real, damping: real,
                                                  x0: real, xe: real, v0: real)
    requires F.Valid() && 0.0 < damping && frequency != 0.0
    ensures var tr := Build(F, MakeDampedHarmonicOscillator(frequency, damping), x0, xe, v0);
      tr.Some? && MatchesStart(F, tr.value, x0, v0)
  {
    if damping < 1.0 {
      UnderDampedDefined(F, frequency, damping, x0, xe, v0);
      UnderDampedMatchesStart(F, frequency, damping, x0, xe, v0);
    } else if damping == 1.0 {
      CriticallyDampedMatchesStart(F, frequency, x0, xe, v0);
    } else {
      OverDampedDefined(F, frequency, damping, x0, xe, v0);
      OverDampedMatchesStart(F, frequency, damping, x0, xe, v0);
    }
  }

  /**
   * For positive mass and spring constant, the mass-spring-damper builder exists,
   * its frequency squared is k/m and twice its damping ratio times its frequency
   * is c/m: the oscillator solves x'' = (k (xe - x) - c x') / m, the equation the
   * Verlet model integrates numerically.
   */
  lemma {:induction false} MassSpringDamperCoefficients(F: Transcendental, mass: real,
                                                        springConstant: real, damperConstant: real)
    requires F.Valid() && 0.0 < mass && 0.0 < springConstant
    ensures var b := MakeMassSpringDamper(F, mass, springConstant, damperConstant);
      && b.Some?
      && var w := b.value.frequency;
         var z := if b.value.CriticalBuilder? then 1.0 else b.value.damping;
         && 0.0 < w
         && w * w == springConstant / mass
         && 2.0 * z * w == damperConstant / mass
  {
    var k, c, m := springConstant, damperConstant, mass;
    RootsOfSpring(F, m, k);
    var s := F.sqrt(m * k);
    var w := F.sqrt(k / m);
    CoefficientIdentity(c, m, k, s, w);
  }

  /** The two square roots the mass-spring-damper takes, and their product. */
  lemma {:induction false} RootsOfSpring(F: Transcendental, m: real, k: real)
    requires F.Valid() && 0.0 < m && 0.0 < k
    ensures var s, w := F.sqrt(m * k), F.sqrt(k / m);
      0.0 < s && 0.0 < w && s * s == m * k && w * w == k / m && w * s == k
  {
    var s, w := F.sqrt(m * k), F.sqrt(k / m);
    assert 0.0 < m * k;
    assert 0.0 < k / m;
    SqrtPositive(F, m * k);
    SqrtPositive(F, k / m);
    assert (w * s) * (w * s) == (w * w) * (s * s);
    assert (k / m) * (m * k) == k * k;
    assert 0.0 < w * s;
    SquareRootUnique(w * s, k);
  }

  /** The algebra behind 2 z w = c / m, for z = c / (2 s). */
  lemma {:induction false} CoefficientIdentity(c: real, m: real, k: real, s: real, w: real)
    requires 0.0 < m && 0.0 < s && s * s == m * k && w * s == k
    ensures 2.0 * (c / (2.0 * s)) * w == c / m
  {
    var z := c / (2.0 * s);
    assert z * (2.0 * s) == c;
    assert (w * m) * s == s * s;
    assert (w * m - s) * s == 0.0;
    assert w * m == s;
    assert (2.0 * z * w) * m == z * (2.0 * (w * m));
    assert (2.0 * z * w) * m == c;
  }

  /**
   * With positive mass and spring constant, the mass-spring-damper is critically
   * damped exactly when c^2 = 4 m k (with c >= 0), under-damped when c is below
   * 2 sqrt(m k) and over-damped when above.
   */
  lemma {:induction false} MassSpringDamperRegime(F: Transcendental, mass: real,
                                                  springConstant: real, damperConstant: real)
    requires F.Valid() && 0.0 < mass && 0.0 < springConstant
    ensures var b := MakeMassSpringDamper(F, mass, springConstant, damperConstant);
      && b.Some?
      && (b.value.CriticalBuilder? <==> 0.0 <= damperConstant && damperConstant * damperConstant == 4.0 * mass * springConstant)
      && (b.value.UnderBuilder? <==> damperConstant < 0.0 || damperConstant * damperConstant < 4.0 * mass * springConstant)
      && (b.value.OverBuilder? <==> 0.0 < damperConstant && damperConstant * damperConstant > 4.0 * mass * springConstant)
  {
    var k, c, m := springConstant, damperConstant, mass;
    RootsOfSpring(F, m, k);
    var s := F.sqrt(m * k);
    RatioWithOne(c, 2.0 * s);
    CompareWithRoot(c, 2.0 * s);
    assert (2.0 * s) * (2.0 * s) == 4.0 * (s * s) == 4.0 * m * k;
  }

  /** How a quotient by a positive d compares with 1. */
  lemma {:induction false} RatioWithOne(c: real, d: real)
    requires 0.0 < d
    ensures c / d < 1.0 <==> c < d
    ensures c / d == 1.0 <==> c == d
  {
    var q := c / d;
    assert q * d == c;
    assert c - d == (q - 1.0) * d;
  }

  /** How c compares with a positive r, read off from the squares. */
  lemma {:induction false} CompareWithRoot(c: real, r: real)
    requires 0.0 < r
    ensures c < r <==> c < 0.0 || c * c < r * r
    ensures c == r <==> 0.0 <= c && c * c == r * r
    ensures c > r <==> 0.0 < c && c * c > r * r
  {
    assert r * r - c * c == (r - c) * (r + c);
    if 0.0 <= c {
      assert 0.0 < r + c;
      if c < r {
        assert 0.0 < (r - c) * (r + c);
      } else if c > r {
        assert (r - c) * (r + c) < 0.0;
      }
    }
  }

  /**
   * Decay with a positive rate starts at x0 and with slope v0; otherwise the
   * trajectory is the constant end value.
   */
  lemma {:induction false} DecayMatchesStart(F: Transcendental, x0: real, xe: real, v0: real)
    requires F.Valid()
    requires Decay(x0, xe, v0).Some?
    ensures var tr := Decay(x0, xe, v0).value;
      && (xe != x0 && v0 / (xe - x0) > 0.0 ==> MatchesStart(F, tr, x0, v0))
      && (xe == x0 || v0 / (xe - x0) <= 0.0 ==> forall t :: Value(F, tr, t) == xe)
  {
    if xe != x0 {
      var l := v0 / (xe - x0);
      assert -l * 0.0 == 0.0;
      assert -l * (x0 - xe) == l * (xe - x0) == v0;
    }
  }

  // ---------------------------------------------------------------------------
  // advanceAnimation
  // ---------------------------------------------------------------------------

  const Tolerance: real := 0.0001

  /**
   * The state left by one call of the closure from `advanceAnimation(startTime,
   * endValue, fn)` at time `now` (milliseconds): `fn` is sampled at the elapsed
   * time in seconds and the velocity scaled to units per second.
   */
  function AdvanceAnimationState(startTime: real, endValue: real, fn: real -> real,
                                 s: AnimState, now: real): AnimState
    requires now != s.lastTime
  {
    var v := fn((now - startTime) / 1000.0);
    var velocity := (v - s.value) / (now - s.lastTime) * 1000.0;
    if Abs(velocity) <= Tolerance && Abs(v - endValue) <= Tolerance
    then AnimState(endValue, velocity, now, true)
    else AnimState(v, velocity, now, s.finished)
  }

  method AdvanceAnimation(anim: Anim, startTime: real, endValue: real, fn: real -> real, now: real)
    returns (r: Anim)
    requires now != anim.lastTime
    modifies anim
    ensures r == anim
    ensures anim.State() == AdvanceAnimationState(startTime, endValue, fn, old(anim.State()), now)
  {
    var dt := now - startTime;
    var newValue := fn(dt / 1000.0);
    anim.velocity := (newValue - anim.value) / (now - anim.lastTime) * 1000.0;
    anim.lastTime := now;
    anim.value := newValue;
    if Abs(anim.velocity) <= Tolerance && Abs(anim.value - endValue) <= Tolerance {
      anim.value := endValue;
      anim.finished := true;
    }
    r := anim;
  }

  /**
   * A step finishes the record exactly when the sampled value and the measured
   * velocity are both within tolerance; a finished step lands exactly on the end
   * value, and an unfinished one keeps the sample. The finished flag is never
   * cleared, and the step's time is recorded.
   */
  lemma AdvanceAnimationSettles(startTime: real, endValue: real, fn: real -> real,
                                s: AnimState, now: real)
    requires now != s.lastTime
    ensures var r := AdvanceAnimationState(startTime, endValue, fn, s, now);
      var sample := fn((now - startTime) / 1000.0);
      && r.lastTime == now
      && r.velocity * (now - s.lastTime) == (sample - s.value) * 1000.0
      && (s.finished ==> r.finished)
      && (Abs(r.velocity) <= Tolerance && Abs(sample - endValue) <= Tolerance ==>
            r.value == endValue && r.finished)
      && (!(Abs(r.velocity) <= Tolerance && Abs(sample - endValue) <= Tolerance) ==>
            r.value == sample && r.finished == s.finished)
  {
  }
}
