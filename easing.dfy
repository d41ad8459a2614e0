/**
 * The easing library: curves from the unit interval to the reals with f(0) = 0
 * and f(1) = 1, the combinators that derive new curves from old ones, and the
 * advance helper that drives a record along a curve over a fixed duration.
 */
module Easing {
  import opened Numeric
  import opened Records

  /** A curve of progress against the fraction of elapsed time. */
  type Curve = real -> real

  /** The easing contract: the curve starts at 0 and ends at 1. */
  predicate IsEasing(f: Curve) {
    f(0.0) == 0.0 && f(1.0) == 1.0
  }

  // ---------------------------------------------------------------------------
  // Combinators (helpers.ease, toEaseOut, toEaseInOut, squeeze)
  // ---------------------------------------------------------------------------

  /** The curve `f` stretched to run from `start` to `end`. */
  function Ease(f: Curve, start: real, end: real): Curve {
    t => start + f(t) * (end - start)
  }

  /** The time-reversed complement of `f`: an ease-in becomes an ease-out. */
  function ToEaseOut(f: Curve): Curve {
    t => 1.0 - f(1.0 - t)
  }

  /** `f` on the first half of the interval, its mirrored complement on the second. */
  function ToEaseInOut(f: Curve): Curve {
    t => 0.5 * (if t < 0.5 then f(2.0 * t) else 2.0 - f(2.0 - 2.0 * t))
  }

  /**
   * `f` restricted to [x1, x2] and rescaled so that x1 maps to (0, 0) and x2 to
   * (1, 1). When f(x2) = f(x1) the source divides by zero and every value of the
   * curve is non-finite; the model answers None.
   */
  function Squeeze(f: Curve, x1: real, x2: real): (r: Option<Curve>)
    ensures r.Some? <==> f(x2) != f(x1)
  {
    var y1 := f(x1);
    if f(x2) - y1 == 0.0 then None
    else Some(t => (f(x1 + t * (x2 - x1)) - y1) / (f(x2) - y1))
  }

  lemma EaseEndpoints(f: Curve, start: real, end: real)
    requires IsEasing(f)
    ensures Ease(f, start, end)(0.0) == start
    ensures Ease(f, start, end)(1.0) == end
  {
  }

  lemma EaseOutPreservesEasing(f: Curve)
    requires IsEasing(f)
    ensures IsEasing(ToEaseOut(f))
  {
  }

  /** Reversing twice gives the original curve back, at every point. */
  lemma EaseOutInvolution(f: Curve, t: real)
    ensures ToEaseOut(ToEaseOut(f))(t) == f(t)
  {
  }

  lemma EaseInOutPreservesEasing(f: Curve)
    requires IsEasing(f)
    ensures IsEasing(ToEaseInOut(f))
  {
  }

  /** The two halves of an in-out curve meet at (1/2, 1/2). */
  lemma EaseInOutMidpoint(f: Curve)
    requires IsEasing(f)
    ensures ToEaseInOut(f)(0.5) == 0.5
    ensures 0.5 * f(2.0 * 0.5) == 0.5 * (2.0 - f(2.0 - 2.0 * 0.5))
  {
  }

  /** A squeezed curve satisfies the easing contract. */
  lemma {:induction false} SqueezeIsEasing(f: Curve, x1: real, x2: real)
    requires f(x2) != f(x1)
    ensures Squeeze(f, x1, x2).Some? && IsEasing(Squeeze(f, x1, x2).value)
  {
    var g := Squeeze(f, x1, x2).value;
    var d := f(x2) - f(x1);
    assert g(0.0) == (f(x1 + 0.0 * (x2 - x1)) - f(x1)) / d;
    assert x1 + 0.0 * (x2 - x1) == x1;
    assert g(1.0) == (f(x1 + 1.0 * (x2 - x1)) - f(x1)) / d;
    assert x1 + 1.0 * (x2 - x1) == x2;
  }

  /** Squeezing an easing to its own unit interval changes nothing. */
  lemma {:induction false} SqueezeUnitInterval(f: Curve, t: real)
    requires IsEasing(f)
    ensures Squeeze(f, 0.0, 1.0).Some? && Squeeze(f, 0.0, 1.0).value(t) == f(t)
  {
    assert 0.0 + t * (1.0 - 0.0) == t;
  }

  // ---------------------------------------------------------------------------
  // Polynomial curves
  // ---------------------------------------------------------------------------

  function Linear(t: real): real { t }

  function QuadIn(t: real): real { t * t }
  function QuadOut(t: real): real { ToEaseOut(QuadIn)(t) }
  function QuadInOut(t: real): real { ToEaseInOut(QuadIn)(t) }

  /** `Math.pow(t, 3)`: an integer power, modelled as the real cube. */
  function CubicIn(t: real): real { t * t * t }
  function CubicOut(t: real): real { ToEaseOut(CubicIn)(t) }
  function CubicInOut(t: real): real { ToEaseInOut(CubicIn)(t) }

  lemma PolynomialEasings()
    ensures IsEasing(Linear)
    ensures IsEasing(QuadIn) && IsEasing(QuadOut) && IsEasing(QuadInOut)
    ensures IsEasing(CubicIn) && IsEasing(CubicOut) && IsEasing(CubicInOut)
  {
    EaseOutPreservesEasing(QuadIn);
    EaseInOutPreservesEasing(QuadIn);
    EaseOutPreservesEasing(CubicIn);
    EaseInOutPreservesEasing(CubicIn);
  }

  // ---------------------------------------------------------------------------
  // Back (make.backIn and the backIn family)
  // ---------------------------------------------------------------------------

  /** `make.backIn(a)`: x^2 ((1 + a) x - a), dipping below 0 before rising to 1. */
  function MakeBackIn(amplitude: real): Curve {
    x => x * x * ((1.0 + amplitude) * x - amplitude)
  }

  lemma {:induction false} MakeBackInIsEasing(amplitude: real)
    ensures IsEasing(MakeBackIn(amplitude))
  {
    assert MakeBackIn(amplitude)(1.0) == 1.0 * 1.0 * ((1.0 + amplitude) * 1.0 - amplitude);
  }

  /**
   * `Easing.backIn` as written: it calls `Easing.makeBackIn`, a property that the
   * easing object does not have (the factory is `Easing.make.backIn`), so every
   * call throws a TypeError. None stands for the thrown error.
   */
  function BackInAsWritten(t: real): Option<real> {
    None
  }

  /** The back curves as evidently intended: `make.backIn(1.70158)`. */
  function BackIn(t: real): real { MakeBackIn(1.70158)(t) }
  function BackOut(t: real): real { ToEaseOut(BackIn)(t) }
  function BackInOut(t: real): real { ToEaseInOut(BackIn)(t) }

  /** The written backIn fails where the intended one yields the easing value 0. */
  lemma BackInAsWrittenThrows()
    ensures BackInAsWritten(0.0).None? && BackIn(0.0) == 0.0
  {
  }

  lemma BackEasings()
    ensures IsEasing(BackIn) && IsEasing(BackOut) && IsEasing(BackInOut)
  {
    MakeBackInIsEasing(1.70158);
    assert IsEasing(BackIn);
    EaseOutPreservesEasing(BackIn);
    EaseInOutPreservesEasing(BackIn);
  }

  // ---------------------------------------------------------------------------
  // Bounce
  // ---------------------------------------------------------------------------

  /**
   * Four parabolic arcs of a ball settling on the floor at 1. 7.5625 is 121/16 =
   * 2.75^2, so each arc touches 1 at its ends.
   */
  function BounceOut(t: real): real {
    if t < 1.0 / 2.75 then 7.5625 * t * t
    else if t < 2.0 / 2.75 then
      var u := t - 1.5 / 2.75; 7.5625 * u * u + 0.75
    else if t < 2.5 / 2.75 then
      var u := t - 2.25 / 2.75; 7.5625 * u * u + 0.9375
    else
      var u := t - 2.625 / 2.75; 7.5625 * u * u + 0.984375
  }

  function BounceIn(t: real): real { ToEaseOut(BounceOut)(t) }
  function BounceInOut(t: real): real { ToEaseInOut(BounceIn)(t) }

  lemma {:induction false} BounceEasings()
    ensures BounceOut(0.0) == 0.0 && BounceOut(1.0) == 1.0
    ensures IsEasing(BounceOut) && IsEasing(BounceIn) && IsEasing(BounceInOut)
  {
    var u := 1.0 - 2.625 / 2.75;
    assert u == 1.0 / 22.0;
    assert 7.5625 * u * u == 1.0 / 64.0;
    EaseOutPreservesEasing(BounceOut);
    EaseInOutPreservesEasing(BounceIn);
  }

  /** The ball never passes through the floor: on [0, 1] bounceOut stays in [0, 1]. */
  lemma {:induction false} BounceOutBounded(t: real)
    requires 0.0 <= t <= 1.0
    ensures 0.0 <= BounceOut(t) <= 1.0
  {
    if t < 1.0 / 2.75 {
      ArcBelowFloor(t, 1.0 / 2.75, 0.0);
    } else if t < 2.0 / 2.75 {
      ArcBelowFloor(t - 1.5 / 2.75, 0.5 / 2.75, 0.75);
    } else if t < 2.5 / 2.75 {
      ArcBelowFloor(t - 2.25 / 2.75, 0.25 / 2.75, 0.9375);
    } else {
      ArcBelowFloor(t - 2.625 / 2.75, 0.125 / 2.75, 0.984375);
    }
  }

  /** One arc 7.5625 u^2 + c whose ends, at u = -w and u = w, touch the floor at 1. */
  lemma {:induction false} ArcBelowFloor(u: real, w: real, c: real)
    requires -w <= u <= w && 0.0 <= c && 7.5625 * (w * w) + c == 1.0
    ensures 0.0 <= 7.5625 * u * u + c <= 1.0
  {
    SquareBound(u, w);
    assert 7.5625 * u * u == 7.5625 * (u * u);
  }

  lemma {:induction false} SquareBound(x: real, y: real)
    requires -y <= x <= y
    ensures 0.0 <= x * x <= y * y
  {
    if 0.0 <= x {
      assert x * x <= x * y;
      assert x * y <= y * y;
    } else {
      assert x * x == (-x) * (-x);
      assert (-x) * (-x) <= (-x) * y;
      assert (-x) * y <= y * y;
    }
  }

  // ---------------------------------------------------------------------------
  // Curves over Math functions (sinIn, expIn, circleIn, elasticIn)
  // ---------------------------------------------------------------------------

  /** 1 - cos(t pi / 2). */
  function SinIn(F: Transcendental): Curve { t => 1.0 - F.cos(t * Pi / 2.0) }
  /** 2^(10 (t - 1)); its own comment admits that expIn(0) is not 0. */
  function ExpIn(F: Transcendental): Curve { t => F.pow(2.0, 10.0 * (t - 1.0)) }
  /** 1 - sqrt(1 - t^2). */
  function CircleIn(F: Transcendental): Curve { t => 1.0 - F.sqrt(1.0 - t * t) }
  /** sin(13 t pi / 2) 2^(10 (t - 1)). */
  function ElasticIn(F: Transcendental): Curve {
    t => F.sin(13.0 * t * Pi / 2.0) * F.pow(2.0, 10.0 * (t - 1.0))
  }

  /**
   * What the model's Math facts give about these curves: sinIn and elasticIn
   * start at 0, expIn ends at 1, circleIn satisfies the whole easing contract,
   * and each Out derivation ends where its In curve starts, reversed.
   */
  lemma {:induction false} TranscendentalEndpoints(F: Transcendental)
    requires F.Valid()
    ensures SinIn(F)(0.0) == 0.0 && ToEaseOut(SinIn(F))(1.0) == 1.0
    ensures ExpIn(F)(1.0) == 1.0 && ToEaseOut(ExpIn(F))(0.0) == 0.0
    ensures ElasticIn(F)(0.0) == 0.0 && ToEaseOut(ElasticIn(F))(1.0) == 1.0
    ensures IsEasing(CircleIn(F)) && IsEasing(ToEaseOut(CircleIn(F)))
    ensures IsEasing(ToEaseInOut(CircleIn(F)))
  {
    assert 0.0 * Pi / 2.0 == 0.0;
    assert 13.0 * 0.0 * Pi / 2.0 == 0.0;
    assert 10.0 * (1.0 - 1.0) == 0.0;
    SqrtOfSquare(F, 1.0);
    SqrtOfSquare(F, 0.0);
    assert 1.0 - 0.0 * 0.0 == 1.0 * 1.0;
    assert 1.0 - 1.0 * 1.0 == 0.0 * 0.0;
    EaseOutPreservesEasing(CircleIn(F));
    EaseInOutPreservesEasing(CircleIn(F));
  }

  // ---------------------------------------------------------------------------
  // helpers.advance
  // ---------------------------------------------------------------------------

  /** The fraction of `duration` elapsed since `startTime`, capped at 1. */
  function Progress(startTime: real, duration: real, now: real): (r: real)
    requires duration != 0.0
    ensures r <= 1.0
    ensures r == 1.0 <==> (now - startTime) / duration >= 1.0
    ensures r != 1.0 ==> r == (now - startTime) / duration
  {
    var p := (now - startTime) / duration;
    if p >= 1.0 then 1.0 else p
  }

  /**
   * The state an advance step leaves behind: the value on the curve at the capped
   * fraction, the velocity over `dt`, finished once the fraction reaches 1.
   */
  function AdvanceState(startTime: real, duration: real, easing: Curve,
                        s: AnimState, dt: real, now: real): AnimState
    requires duration != 0.0 && dt != 0.0
  {
    var p := Progress(startTime, duration, now);
    var v := easing(p);
    AnimState(v, (v - s.value) / dt, s.lastTime, s.finished || p == 1.0)
  }

  /** The closure returned by `helpers.advance(startTime, duration, easing)`, applied. */
  method Advance(anim: Anim, startTime: real, duration: real, easing: Curve, dt: real, now: real)
    returns (r: Anim)
    requires duration != 0.0 && dt != 0.0
    modifies anim
    ensures r == anim
    ensures anim.State() == AdvanceState(startTime, duration, easing, old(anim.State()), dt, now)
  {
    var percentage := (now - startTime) / duration;
    if percentage >= 1.0 {
      percentage := 1.0;
    }
    var newValue := easing(percentage);
    anim.velocity := (newValue - anim.value) / dt;
    anim.value := newValue;
    if percentage == 1.0 {
      anim.finished := true;
    }
    r := anim;
  }

  /**
   * Once the duration has elapsed the record sits at the curve's end value and is
   * finished; before that it follows the curve and keeps its finished flag. In
   * both cases the velocity times `dt` is the change in value.
   */
  lemma {:induction false} AdvanceTiming(startTime: real, duration: real, easing: Curve,
                                         s: AnimState, dt: real, now: real)
    requires 0.0 < duration && dt != 0.0
    ensures var r := AdvanceState(startTime, duration, easing, s, dt, now);
      && r.velocity * dt == r.value - s.value
      && (startTime + duration <= now ==> r.finished && r.value == easing(1.0))
      && (now < startTime + duration ==>
            r.finished == s.finished && r.value == easing((now - startTime) / duration))
  {
    var r := AdvanceState(startTime, duration, easing, s, dt, now);
    assert r.velocity * dt == r.value - s.value;
    if startTime + duration <= now {
      assert (now - startTime) / duration >= 1.0 by { DivAtLeastOne(now - startTime, duration); }
    } else {
      assert (now - startTime) / duration < 1.0 by { DivBelowOne(now - startTime, duration); }
    }
  }

  /** Advancing along `Ease(f, start, end)` for an easing `f` ends exactly at `end`. */
  lemma AdvanceEndsAtEnd(startTime: real, duration: real, f: Curve, start: real, end: real,
                         s: AnimState, dt: real, now: real)
    requires IsEasing(f) && 0.0 < duration && dt != 0.0 && startTime + duration <= now
    ensures AdvanceState(startTime, duration, Ease(f, start, end), s, dt, now).value == end
    ensures AdvanceState(startTime, duration, Ease(f, start, end), s, dt, now).finished
  {
    AdvanceTiming(startTime, duration, Ease(f, start, end), s, dt, now);
  }

  lemma DivAtLeastOne(x: real, d: real)
    requires 0.0 < d <= x
    ensures x / d >= 1.0
  {
  }

  lemma DivBelowOne(x: real, d: real)
    requires 0.0 < d && x < d
    ensures x / d < 1.0
  {
  }
}
