# Animation engine of a React animation mixin, in Dafny

This project models the animation engine of a small React animation library
(`src/animation/`), and proves properties of it. The engine has four parts:

- **Easings** (`easing.dfy`, module `Easing`): curves with f(0) = 0 and
  f(1) = 1. It includes the `ease`, `toEaseOut`, `toEaseInOut` and `squeeze`
  combinators, the polynomial, back and bounce curves, and the transcendental
  curves over uninterpreted `Math` functions. `helpers.advance` is the method
  `Easing.Advance`; it updates an animation record (`Records.Anim`) in place.
- **Closed-form physics** (`physical.dfy`, module `Physical`): the coefficient
  builders of the damped harmonic oscillator (under-, critically and
  over-damped), the regime dispatch, the mass-spring-damper and exponential
  decay, each proved to start at the start value with the start velocity as its
  slope. Both `physical.jsx` and `simulation.jsx` contain these builders as the
  same expressions, so they are modelled once. The two advance helpers differ
  (time unit, velocity scale, recorded time). They are `Physical.AdvanceAnimation`
  and `Simulation.AdvanceAnimation`; `Simulation.AgreesWithPhysical` states how far they agree.
- **Verlet models** (`model_js.dfy`, module `ModelJs`, and `model_jsx.dfy`, module
  `ModelJsx`): a record (`ModelJs.Body`) is stepped in place by half-step velocity
  Verlet integration under a force law. It is then checked against an end
  condition and, in `model.js`, corrected by elastic boundaries. The older
  `model.jsx` never stores the new acceleration, and its constraints are
  restrict/resolve pairs. The proofs show:
  - Verlet integration is exact for constant acceleration.
  - The older integrator gains only half of that velocity.
- **The mixin** (`animation_mixin.dfy`, module `AnimationMixin`): the component
  (`AnimatedComponent`) is a class. Its fields are the animation state, the map
  of ongoing records (`Channel`, one per property), the log of fired `onEnded`
  callbacks, the pending-frame flag, the count of frame requests and the count
  of renders. The methods follow the source:
  - `CancelAnimation`
  - `SetAnimationState`
  - `AnimateToState` (start value, start velocity, fade blend, the eased and
    physical `advance` closures)
  - `DoAnimations` (advance, write, cancel finished, render, reschedule)

  Each loop of the source is a `for` loop. Each loop's invariant ties the
  component's state to a function of the state before the loop.

Numbers are `real`. `Math.exp`, `sin`, `cos`, `sqrt` and `pow` are fields of a
`Numeric.Transcendental` value. The only facts assumed of them are stated in
its `Valid()` predicate:

- exp(0) = 1, sin(0) = 0 and cos(0) = 1
- sqrt is the non-negative root on non-negative numbers
- pow(b, 0) = 1

Where the source computes a value that JavaScript would make non-finite (a
division by zero), a builder returns `None`, as an `Option`, or the operation
requires a non-zero divisor. JavaScript's `x || d` defaults are
`Numeric.OrDefault`, and 0 counts as absent there.

## Model

| member | source | states |
|---|---|---|
| Numeric.Abs | src/animation/model.js:36 | `Math.abs`: non-negative, and equal to x or -x |
| Numeric.SqrtOfSquare | src/animation/physical.jsx:52 | from the root facts alone, sqrt(x * x) is \|x\| |
| Records.Anim.constructor | src/animation/animationMixin.jsx:172-179 | a fresh record holds the given value, velocity and time, not finished |
| Easing.Squeeze | src/animation/easing.jsx:31-34 | the squeezed curve is defined exactly when f(x2) != f(x1), the divisor of the source |
| Easing.EaseEndpoints | src/animation/easing.jsx:12-14 | `ease(f, s, e)` of an easing yields s at 0 and e at 1 |
| Easing.EaseOutPreservesEasing | src/animation/easing.jsx:16-18 | `toEaseOut` maps easings to easings |
| Easing.EaseOutInvolution | src/animation/easing.jsx:16-18 | `toEaseOut` applied twice gives the original curve back at every point |
| Easing.EaseInOutPreservesEasing | src/animation/easing.jsx:20-22 | `toEaseInOut` maps easings to easings |
| Easing.EaseInOutMidpoint | src/animation/easing.jsx:20-22 | the two halves of an in-out curve meet at (1/2, 1/2) |
| Easing.SqueezeIsEasing | src/animation/easing.jsx:23-34 | when f(x2) != f(x1) the squeezed curve exists and satisfies f'(0) = 0 and f'(1) = 1 |
| Easing.SqueezeUnitInterval | src/animation/easing.jsx:31-34 | squeezing an easing to [0, 1] changes nothing, pointwise |
| Easing.PolynomialEasings | src/animation/easing.jsx:64-79 | `linear`, `quadIn`, `cubicIn` and their Out/InOut derivations are easings |
| Easing.MakeBackInIsEasing | src/animation/easing.jsx:139-141 | `make.backIn(a)` is an easing for every amplitude |
| Easing.BackInAsWrittenThrows | src/animation/easing.jsx:103-105 | `backIn` as written fails (the property it calls does not exist) where the intended curve yields 0 |
| Easing.BackEasings | src/animation/easing.jsx:103-107 | the intended `backIn` and its Out/InOut derivations are easings |
| Easing.BounceEasings | src/animation/easing.jsx:119-130 | `bounceOut(0) = 0` and `bounceOut(1) = 1` exactly; `bounceOut`, `bounceIn = toEaseOut(bounceOut)` and `bounceInOut` are easings |
| Easing.BounceOutBounded | src/animation/easing.jsx:124-129 | on [0, 1] each of the four arcs of `bounceOut` stays within [0, 1] |
| Easing.TranscendentalEndpoints | src/animation/easing.jsx:81-116 | given only the Math facts at 0: `sinIn` and `elasticIn` start at 0; `expIn` ends at 1; the Out derivations end or start accordingly; `circleIn` and its derivations are easings |
| Easing.Progress | src/animation/easing.jsx:40-43 | the elapsed fraction is clamped at 1; it is 1 exactly when the raw fraction reaches 1, and otherwise it is the raw fraction |
| Easing.Advance | src/animation/easing.jsx:38-52 | the record is updated in place to the curve's value at the clamped fraction, with velocity (new - old) / dt, and is finished once the fraction is 1 |
| Easing.AdvanceTiming | src/animation/easing.jsx:38-52 | after the duration the record is at the curve's end value and finished; before it, the record follows the curve at the elapsed fraction and keeps its flag; velocity times dt is the change of value |
| Easing.AdvanceEndsAtEnd | src/animation/easing.jsx:38-52 | advancing along `ease(f, start, end)` after the duration lands exactly on `end`, finished |
| Physical.MakeOverDamped | src/animation/physical.jsx:19-29 | the over-damped coefficients exist exactly when the rates differ (y2 - y1 != 0) |
| Physical.MakeUnderDamped | src/animation/physical.jsx:31-38 | the under-damped coefficients exist exactly when the damped frequency is non-zero |
| Physical.MakeDampedHarmonicOscillator | src/animation/physical.jsx:42-50 | the dispatch: under-damped iff damping < 1, critically damped iff damping = 1, over-damped iff damping > 1, with the same frequency and damping |
| Physical.MakeMassSpringDamper | src/animation/physical.jsx:51-53 | the builder is defined exactly when neither divisor (m, sqrt(m k)) is 0 |
| Physical.Decay | src/animation/physical.jsx:65-74 | the decay is undefined (NaN at t = 0) exactly when endValue = startValue and the start velocity is positive |
| Physical.PresetRegimes | src/animation/physical.jsx:55-57 | the presets are under-damped (10, 0.3), critically damped (10) and over-damped (10, 1.5) |
| Physical.CriticallyDampedMatchesStart | src/animation/physical.jsx:11-17 | with a = x0 - xe and b = a w + v0 the curve starts at x0 with slope b - w a = v0 |
| Physical.OverDampedMatchesStart | src/animation/physical.jsx:19-29 | the coefficients satisfy a + b = x0 - xe and a y1 + b y2 = v0, so the curve starts at x0 with slope v0 |
| Physical.UnderDampedMatchesStart | src/animation/physical.jsx:31-38 | the curve starts at x0 and -z w a + wd b = v0 is its initial slope |
| Physical.OverDampedDefined | src/animation/physical.jsx:18-29 | for damping > 1 and a non-zero frequency the over-damped coefficients exist |
| Physical.UnderDampedDefined | src/animation/physical.jsx:30-38 | for 0 <= damping < 1 and a non-zero frequency the under-damped coefficients exist |
| Physical.OscillatorMatchesStart | src/animation/physical.jsx:41-50 | whichever regime the dispatch picks, for damping > 0 and frequency != 0 the trajectory starts at x0 with slope v0 |
| Physical.MassSpringDamperCoefficients | src/animation/physical.jsx:51-53 | for m, k > 0 the builder exists with w^2 = k/m and 2 z w = c/m: it solves x'' = (k (xe - x) - c x') / m |
| Physical.MassSpringDamperRegime | src/animation/physical.jsx:42-53 | for m, k > 0 the mass-spring-damper is critically damped iff c^2 = 4 m k with c >= 0, under-damped iff c < 2 sqrt(m k), over-damped iff above |
| Physical.DecayMatchesStart | src/animation/physical.jsx:65-74 | with a positive rate the decay starts at x0 with slope v0; otherwise it is the constant end value |
| Physical.AdvanceAnimation | src/animation/physical.jsx:76-90 | the record is updated in place: sampled at the elapsed seconds, velocity (new - old) / (now - lastTime) * 1000, lastTime := now, snapped to the end value and finished when within tolerance |
| Physical.AdvanceAnimationSettles | src/animation/physical.jsx:76-90 | a step finishes iff sample and velocity are both within 1e-4; a finished step lands exactly on the end value, an unfinished one keeps the sample; the flag is never cleared |
| Simulation.AdvanceAnimation | src/animation/simulation.jsx:22-34 | the record is updated in place: sampled at the raw elapsed time, velocity (new - old) / dt, snapped and finished within tolerance, lastTime untouched |
| Simulation.StepSettles | src/animation/simulation.jsx:22-34 | velocity times dt is the sampled change; finishes onto the end value iff both tolerances hold; never clears the flag |
| Simulation.AgreesWithPhysical | src/animation/simulation.jsx:22-34 | given the same trajectory in each helper's time unit and dt = now - lastTime: the physical velocity is 1000 times the other and only the physical helper records the time; when the physical helper finishes so does this one; both finish when \|velocity\| <= 1e-7 per ms and the sample is within tolerance; while this one is unfinished both hold the same value |
| Simulation.UnitsDisagree | src/animation/simulation.jsx:22-34 | a record 5e-5 below the end, stepped onto it in 1 ms, finishes here but not in the physical helper (physical.jsx:76-90), whose velocity is 0.05 per second |
| ModelJs.Body.constructor | src/animation/model.js:11-23 | a record with the given kinematic state and end condition, not finished |
| ModelJs.CheckStopControlled | src/animation/model.js:35-42 | `stopControlled` returns the tolerance test and snaps the value onto the end value exactly when it holds |
| ModelJs.CheckEnd | src/animation/model.js:35-48 | running a record's end condition returns its verdict and the record it leaves |
| ModelJs.EndConditions | src/animation/model.js:5-48 | controlled stop iff \|end - value\| < 1e-4 and \|v\| < 1e-4, snapping the value; uncontrolled stop iff \|v\| and \|a\| are below 1e-4; `dontStop` never holds; only a controlled stop changes the record, and a second check changes nothing |
| ModelJs.VerletIntegration | src/animation/model.js:11-23 | the record is updated in place by the half-step formulas, stores newA, and is marked finished when the end condition holds |
| ModelJs.VerletStep | src/animation/model.js:11-22 | one step moves by v dt + a dt^2 / 2, changes the velocity by the mean acceleration times dt, stores newA, and finished is set iff it was set or the end condition holds; it is never cleared |
| ModelJs.ElapsedIsProduct | src/animation/model.js:11-18 | n steps of dt cover n dt |
| ModelJs.StepsFollowKicks | src/animation/model.js:11-22 | under an end condition that does not snap, the steps move the record like the bare updates |
| ModelJs.KicksAreExact | src/animation/model.js:11-18 | the bare updates from a record accelerating at a follow uniformly accelerated motion exactly |
| ModelJs.ConstantAccelerationIsExact | src/animation/model.js:11-22 | n Verlet steps under constant a are on the parabola x0 + v0 T + a T^2 / 2, with velocity v0 + a T |
| ModelJs.ParabolaStep | src/animation/model.js:15-18 | one more step keeps a record on its parabola, the time advancing by dt |
| ModelJs.UniformMotion | src/animation/model.js:11-18 | with a = newA = 0, n steps give value x0 + v0 n dt and leave the velocity unchanged |
| ModelJs.StepsKeepFinished | src/animation/model.js:19-21 | a finished record stays finished through any number of steps |
| ModelJs.ForcesOppose | src/animation/model.js:76-105 | fluid drag has magnitude c v^2 with the opposite sign to v; air drag and damper oppose motion; the spring pulls toward the end value and vanishes only there |
| ModelJs.Simulate | src/animation/model.js:110-161 | each step function runs the Verlet step with its force law's acceleration and returns the record; `nothing` returns undefined |
| ModelJs.ControlledAccelerations | src/animation/model.js:110-126 | the mass-spring-damper accelerates by (k (end - x) - c v) / m; `dampedHarmonicOscillator(w, z)` is `massSpringDamper(1, w^2, 2 w z)`; `damper` has no spring |
| ModelJs.UncontrolledAccelerations | src/animation/model.js:134-161 | the presets: gravity -10 and +10 upside down; the drags oppose motion; `nothing` applies 0 |
| ModelJs.GravityFollowsParabola | src/animation/model.js:135-140 | the gravity step feeds -g, and n steps follow free fall exactly |
| ModelJs.CriticallyDampedAsWrittenIsNotCritical | src/animation/model.js:121-123 | as written, `criticallyDamped(f)` is critically damped only for f = 1; the preset with f = 10 has c^2 = 400 against 4 m k = 4 |
| ModelJs.CorrectedMakerIsCritical | src/animation/model.js:118-123 | `dampedHarmonicOscillator(f, 1)` is critically damped, c^2 = 4 m k, for every f >= 0 |
| ModelJs.CriticallyDampedIsCritical | src/animation/model.js:121-123 | with damping 1, `criticallyDamped(f)` is critically damped for every f >= 0, and the closed-form builder picks its critically damped branch |
| ModelJs.Presets | src/animation/model.js:118-129 | the presets are `massSpringDamper(1, 100, 10)` and `(1, 100, 26)`; `criticallyDamped(10)`, built as written, is `massSpringDamper(1, 1, 20)`, over-damped and not critical; the corrected maker would give the critical `(1, 100, 20)` |
| ModelJs.ApplyElastic | src/animation/model.js:54-73 | the constraint updates the record in place |
| ModelJs.ElasticBoundariesFacts | src/animation/model.js:54-73 | inside the bounds nothing changes; outside, the value goes to the violated bound and the velocity becomes -e v, or 0 when \|v\| < 0.05; a slow record (\|v\| < 1) has its acceleration set to a^2 v, or to 0 below 0.05; missing bounds are infinite and e defaults to 0.8; with ordered bounds the result is inside them, so a second application changes nothing |
| ModelJs.ApplyAllInside | src/animation/model.js:29-31 | a record inside every constraint's bounds passes through unchanged |
| ModelJs.ApplyAllRespectsLast | src/animation/model.js:29-31 | the last constraint in the array, if its bounds are ordered, has the final say |
| ModelJs.Constrain | src/animation/model.js:24-34 | first the simulation step, then each constraint once in array order, and the same record back; under `nothing` the first constraint throws |
| ModelJsx.VerletIntegration | src/animation/model.jsx:9-20 | the record is updated in place by the half-step formulas; the acceleration is left as it was; finished is set when the end condition holds |
| ModelJsx.VerletStep | src/animation/model.jsx:9-19 | the stored acceleration is kept; the velocity changes by the mean of the stored and new accelerations; finished is set iff it was set or the end condition holds |
| ModelJsx.StepsFollowKicks | src/animation/model.jsx:9-19 | under an end condition that does not snap, the steps move the record like the bare updates |
| ModelJsx.KicksGainHalf | src/animation/model.jsx:9-15 | from a stored acceleration of 0, the bare updates gain a/2 per unit time and keep the stored 0 |
| ModelJsx.StaleAccelerationGainsHalf | src/animation/model.jsx:9-19 | under constant a, from a stored 0, the velocity gains a T / 2 over time T, while the model.js integrator gains a T |
| ModelJsx.FrictionOpposes | src/animation/model.jsx:52-60 | friction is -mu for v > 0, mu for v < 0 and 0 at rest: it opposes any motion with magnitude mu |
| ModelJsx.FluidDragAsWrittenPushesAlong | src/animation/model.jsx:65-67 | the older fluid drag agrees with the sign-aware one for v >= 0 and is its opposite for v < 0 (c = 5, v = -1 gives -5) |
| ModelJsx.Simulate | src/animation/model.jsx:85-115 | the mass-spring-damper and gravity steps run the older Verlet step with their accelerations |
| ModelJsx.Presets | src/animation/model.jsx:90-104 | the presets are `massSpringDamper(1, 400, 28)` and `(1, 400, 52)`; `criticallyDamped(20)`, built as written, is `massSpringDamper(1, 1, 40)`, over-damped and not critical; the corrected maker would give the critical `(1, 400, 40)` |
| ModelJsx.ConstrainStateConcat | src/animation/model.jsx:29-34 | running two constraint arrays in turn is running their concatenation |
| ModelJsx.ConstrainStateUnrestricted | src/animation/model.jsx:29-34 | when no `restrict` holds, the record passes through unchanged |
| ModelJsx.Store | src/animation/model.jsx:32 | the record takes the state a host `resolve` produced |
| ModelJsx.Constrain | src/animation/model.jsx:22-36 | the simulation step, then for each constraint in array order `resolve` exactly where `restrict` holds; nothing is returned |
| AnimationMixin.Channel.constructor | src/animation/animationMixin.jsx:172-179 | a record starts at its start value and velocity, at the start time, unfinished, with its callback and advance closure |
| AnimationMixin.Channel.Advance | src/animation/animationMixin.jsx:180-208 | the record's `advance` closure updates it in place to its next state and returns it |
| AnimationMixin.AnimDuration | src/animation/animationMixin.jsx:137 | the duration is never 0: an omitted or zero duration falls back to 1000 |
| AnimationMixin.FadeDuration | src/animation/animationMixin.jsx:158 | the fade length is never 0: an omitted or zero fade duration falls back to 0.5 |
| AnimationMixin.MakeAdvancer | src/animation/animationMixin.jsx:147-209 | the closure starts at `now`, and it is the physical one exactly when the easing has arity 2 |
| AnimationMixin.StartVelocityChoice | src/animation/animationMixin.jsx:141-143 | the fade's starting velocity if given and non-zero, else the cancelled record's velocity if non-zero, else 0 |
| AnimationMixin.Defaults | src/animation/animationMixin.jsx:135-159 | each `\|\|` default, in both directions: a duration omitted or 0 is 1000, else the given one; a start value omitted or 0 is the current value, else the given one; a fade length omitted or 0 is 0.5, else the given one; an omitted easing is `cubicInOut` (a given one is kept) and an omitted fade easing is `quadOut` |
| AnimationMixin.BlendAfterFade | src/animation/animationMixin.jsx:160-166 | for t >= fade duration the blend is the unblended easing |
| AnimationMixin.BlendAtZero | src/animation/animationMixin.jsx:157-163 | at t = 0, with the fade easing at 0 there (the default `quadOut` is), the blend is the start value |
| AnimationMixin.EasedChannelEnds | src/animation/animationMixin.jsx:180-193 | a one-argument easing from 0 to 1 brings the record exactly to the end value, finished, at the first frame at or after the duration |
| AnimationMixin.EasedChannelRunning | src/animation/animationMixin.jsx:180-193 | before the duration ends the record follows its easing at the elapsed fraction, with lastTime := now, and does not finish |
| AnimationMixin.PhysicalChannel | src/animation/animationMixin.jsx:149-151 | a physical easing ignores the fade and the duration; the record samples the function built from the offset and the velocity times 1000, shifted by the end value, and settles onto it within 1e-4 |
| AnimationMixin.LinearScenario | src/animation/animationMixin.jsx:180-193 | a linear animation to 1 is at 0.5 half-way, moving at 0.001 per ms, and at 1 and finished at 1000 ms |
| AnimationMixin.WithoutMembers | src/animation/animationMixin.jsx:51 | deleting keys one at a time removes exactly those keys and keeps the other entries |
| AnimationMixin.WriteMembers | src/animation/animationMixin.jsx:40 | writing keys one at a time sets exactly those keys and keeps the rest |
| AnimationMixin.WriteAll | src/animation/animationMixin.jsx:38-41 | writing every key of `newState` is the override `old + newState` |
| AnimationMixin.InstallStep | src/animation/animationMixin.jsx:210 | storing one more record extends the installed map by that key |
| AnimationMixin.InstallOutside | src/animation/animationMixin.jsx:210 | keys not stored keep their old records |
| AnimationMixin.InstallMembers | src/animation/animationMixin.jsx:210 | after storing distinct keys each key has exactly its own record and other keys keep theirs |
| AnimationMixin.InstallDomain | src/animation/animationMixin.jsx:210 | after the stores, the properties with a record are the earlier ones and the stored ones |
| AnimationMixin.InstallValues | src/animation/animationMixin.jsx:210 | with distinct properties, each stored property holds the record stored for it |
| AnimationMixin.SelectMembers | src/animation/animationMixin.jsx:224-225 | the selected keys are exactly those whose flag is set, each once |
| AnimationMixin.SelectAppend | src/animation/animationMixin.jsx:224-225 | one more key is selected iff its flag is set |
| AnimationMixin.NoDupAppend | src/animation/animationMixin.jsx:219 | a new key keeps a key list free of repeats |
| AnimationMixin.FinishedFlags | src/animation/animationMixin.jsx:224 | one finished flag per key |
| AnimationMixin.FinishedFlagsAt | src/animation/animationMixin.jsx:224 | the flags are the finished flags of the keys' records |
| AnimationMixin.FiredStep | src/animation/animationMixin.jsx:139 | cancelling one more key appends that record's callback entry to the log |
| AnimationMixin.FiredEntries | src/animation/animationMixin.jsx:45-55 | cancelling distinct keys fires each cancelled record's callback once, in key order, and nothing else |
| AnimationMixin.CancelInRest | src/animation/animationMixin.jsx:45-55 | cancelling a not-yet-deleted key fires what it would fire in the original map |
| AnimationMixin.AllStartedStep | src/animation/animationMixin.jsx:133-211 | starting one more entry extends the list of started records |
| AnimationMixin.StartedInstalled | src/animation/animationMixin.jsx:133-211 | after the loop each entry's property holds the record started for it |
| AnimationMixin.StepFlags | src/animation/animationMixin.jsx:224 | one flag per stepped key |
| AnimationMixin.StepFlagsAt | src/animation/animationMixin.jsx:224 | each flag is its key's finished flag after the step |
| AnimationMixin.StepWritesMembers | src/animation/animationMixin.jsx:223 | after n steps the state holds each stepped key's new value and keeps the other entries |
| AnimationMixin.StepWritesDomain | src/animation/animationMixin.jsx:223 | after n steps the state's keys are the old keys and the visited keys |
| AnimationMixin.StepWritesValues | src/animation/animationMixin.jsx:223 | each visited key holds the value its record stepped to |
| AnimationMixin.StepWritesRest | src/animation/animationMixin.jsx:223 | a key not visited keeps its old value |
| AnimationMixin.StepsDone | src/animation/animationMixin.jsx:219-230 | after the loop every record holds its stepped state, the removals are the finished keys, and the written values are those of the records |
| AnimationMixin.StepRemovalsBefore | src/animation/animationMixin.jsx:224-225 | only keys already visited are removed |
| AnimationMixin.StepRemovalsSelect | src/animation/animationMixin.jsx:224-225 | the removals are the visited keys whose step finished them, in order |
| AnimationMixin.SteppingStep | src/animation/animationMixin.jsx:219-230 | visiting the next key finds its original record, writes its value and cancels it iff it finished |
| AnimationMixin.SteppingFinishes | src/animation/animationMixin.jsx:224-228 | cancelling a finished record removes its key and fires its callback after the earlier ones |
| AnimationMixin.WithoutAppend | src/animation/animationMixin.jsx:51 | deleting one more key removes just it |
| AnimationMixin.FiredAppend | src/animation/animationMixin.jsx:48-50 | cancelling one more key appends just its callback |
| AnimationMixin.RecordsDistinct | src/animation/animationMixin.jsx:219-222 | distinct properties hold distinct records, so stepping one leaves the others alone |
| AnimationMixin.AnimatedComponent.constructor | src/animation/animationMixin.jsx:13-24 | the initial animation state, no records, no frame pending, and one render |
| AnimationMixin.AnimatedComponent.CancelAnimation | src/animation/animationMixin.jsx:45-55 | an absent key changes nothing and returns None; a present key fires its callback, is deleted (only it), and its record is returned |
| AnimationMixin.AnimatedComponent.SetAnimationState | src/animation/animationMixin.jsx:36-43 | every key of `newState` is cancelled and overwritten, so the state becomes `old + newState`; the callbacks fire in key order; one render |
| AnimationMixin.AnimatedComponent.SetEntry | src/animation/animationMixin.jsx:39-40 | one iteration: cancel the key and write its value |
| AnimationMixin.AnimatedComponent.Render | src/animation/animationMixin.jsx:231 | one more render and nothing else |
| AnimationMixin.AnimatedComponent.AnimateToState | src/animation/animationMixin.jsx:130-215 | each requested property ends with exactly one fresh record started for it, and its prior record was cancelled first (callback fired); other records are kept; a frame is requested iff none was pending |
| AnimationMixin.AnimatedComponent.RequestFrame | src/animation/animationMixin.jsx:212-214 | a frame is pending afterwards; it is requested only when none was |
| AnimationMixin.AnimatedComponent.StartAll | src/animation/animationMixin.jsx:133-211 | every entry is installed in order, each as a fresh record started for it |
| AnimationMixin.AnimatedComponent.StartEntry | src/animation/animationMixin.jsx:134-210 | one iteration installs a record started for the entry from the pre-loop state |
| AnimationMixin.AnimatedComponent.StartOne | src/animation/animationMixin.jsx:134-210 | cancel the property's record, then store a fresh record for the request |
| AnimationMixin.AnimatedComponent.StepOne | src/animation/animationMixin.jsx:220-229 | advance a record, write its value, and cancel it iff it finished |
| AnimationMixin.IdlePassKeepsLooping | src/animation/animationMixin.jsx:216-237 | a pass over no records requests another frame; among passes ending with no records, exactly those that began with none do |
| AnimationMixin.IntendedStopsWhenIdle | src/animation/animationMixin.jsx:216-237 | the intended decision requests no frame once no record is left, and agrees with the one as written on every pass that starts with records |
| AnimationMixin.AnimatedComponent.DoAnimations | src/animation/animationMixin.jsx:216-237 | every record advances once and its value is written; exactly the finished ones are removed, firing their callbacks; one render; a new frame is requested unless a removal emptied the map, which leaves no frame pending |
| AnimationMixin.AnimatedComponent.EndPass | src/animation/animationMixin.jsx:231-236 | render once; request a frame unless the pass emptied the map |
| AnimationMixin.AnimatedComponent.StepAll | src/animation/animationMixin.jsx:219-230 | the loop: all records advanced and written, the finished ones removed in key order; reports whether a removal emptied the map |
| AnimationMixin.AnimatedComponent.StepLoop | src/animation/animationMixin.jsx:219-230 | the loop, stated on the records' states before it |
| AnimationMixin.AnimatedComponent.StepEntry | src/animation/animationMixin.jsx:220-229 | one iteration: the key's record steps, its value is written, and it is cancelled iff it finished |

## Left out

- Floating point: numbers are reals. NaN, infinities and rounding are not modelled. Where the source divides by a value that can be 0, either the builder returns `None` or the operation requires a non-zero divisor. Those divisors are `dt` in the advance helpers, `now - lastTime` in the mixin's closures, the duration in `helpers.advance` (easing.jsx:40, required non-zero by `Easing.Progress`, `Easing.AdvanceState` and `Easing.Advance`), and the mass of `massSpringDamper` in both `model.js` (`ModelJs.Defined`) and `model.jsx`.
- Only the facts in `Transcendental.Valid()` are assumed about `Math.exp`, `sin`, `cos`, `sqrt` and `pow`. Convergence, settling and overshoot are therefore not proved.
- `expIn(0)` is not 0. The source's own comment says so, and the model claims only `expIn(1) = 1`.
- `make.polyIn` and `make.elasticIn` are not modelled. They need real powers and `Math.round`, about which the model assumes nothing.
- `cubicIn` uses `Math.pow(t, 3)`. It is modelled as `t * t * t`.
- `window.performance.now()` and `requestAnimationFrame` are host APIs. The current time is a parameter, and the pending frame handle is the flag `framePending` with the counter `frameRequests`.
- `performAnimation` is a counter of renders, and `getInitialAnimationState` is the constructor's argument.
- `onEnded` callbacks are host code. Firing one appends its identifier to the log `ended`.
- The target lookup through the `animationIds` registry and `_owner._rootNodeID` (animationMixin.jsx:10, 19-21, 37, 131) relies on React internals. The component always animates itself.
- A `for ... in` loop visits keys in an order the model does not fix: `SetAnimationState` and `DoAnimations` take that order as a parameter.
- The polyfills, the examples, `src/index.jsx` and the build files are not part of this model.
- The custom interpolation of a three-argument easing over values other than numbers is kept only as a curve the record calls with the progress. The same holds for the physical builders' three-argument closures, which land in this branch.
- The mixin's physical closure samples the function an arity-2 easing returns. The model takes that function as given.
- `uncontrolled.make.slide`, `slidePhysical` and the `slide` preset of `model.jsx` pass a function where a number is expected, which has no numeric meaning. `forces.friction` itself is modelled as `ModelJsx.Friction`.
- AnimationMixin.AnimatedComponent.AnimateToState: requires each entry to have a non-zero `startValue` or a current value for its property. In the source a missing start value with no current value is `undefined` and the record's values become NaN; the model does not cover that case.
- The unused `t` argument of every step function is omitted.
- `simulation.jsx`'s `make.*` builders and `decay` (simulation.jsx:38-106) are the same expressions as `physical.jsx`'s. They are modelled once, by `Physical`.
- The parts of `model.jsx` shared with `model.js` (stop predicates, spring, damper, air drag, gravity, the controlled makers) are modelled once, by `ModelJs`.
- A custom end condition is a host predicate that does not change the record.
- Easing.TranscendentalEndpoints: states only what the Math facts at 0 give. It does not prove that `sinIn(1) = 1` or `elasticIn(1) = 1`, which need cos and sin at pi / 2.
- AnimationMixin.AnimatedComponent.AnimateToState: requires distinct properties, because the entries of an object cannot repeat a key.

## Findings

| source | as written | input that shows it | evidently intended | confidence | as-written member | corrected member |
|---|---|---|---|---|---|---|
| src/animation/easing.jsx:103-105 | `backIn` calls `Easing.makeBackIn`, which the easing object does not define; the factory is `Easing.make.backIn` | any t, e.g. `backIn(0)` throws a TypeError | `make.backIn(1.70158)(t)` | high, not executed | Easing.BackInAsWrittenThrows | Easing.BackEasings |
| src/animation/model.js:121-123 | `criticallyDamped(f)` calls `dampedHarmonicOscillator(1, f)`: frequency 1 and damping f | f = 10 gives the preset c = 20, k = 1: c^2 = 400 against 4 m k = 4, over-damped | `dampedHarmonicOscillator(f, 1)` | high, not executed | ModelJs.CriticallyDampedAsWrittenIsNotCritical | ModelJs.CriticallyDampedIsCritical |
| src/animation/model.jsx:65-67 | `fluidDrag` returns -c v^2 whatever the sign of v | c = 5, v = -1 gives -5, pushing along the motion | a drag against the motion, as model.js:83-92 computes | medium, not executed | ModelJsx.FluidDragAsWrittenPushesAlong | ModelJs.ForcesOppose |
| src/animation/animationMixin.jsx:216-237 | a pass of `doAnimations` stops requesting frames only when one of its own removals empties the map; a pass that starts with no records requests another frame | `setAnimationState` or `cancelAnimation` empties the map while a frame is pending: every later frame renders and requests the next, forever | stop requesting frames once no record is left | medium, not executed | AnimationMixin.IdlePassKeepsLooping | AnimationMixin.IntendedStopsWhenIdle |
| src/animation/model.jsx:9-20 | the Verlet step never stores `newA` in `acceleration` | constant a = 1 from a stored 0: after time T the velocity has gained T / 2 instead of T | store `obj.acceleration = newA`, as model.js:18 does | medium, not executed | ModelJsx.StaleAccelerationGainsHalf | ModelJs.ConstantAccelerationIsExact |

The presets `criticallyDamped` of `model.js` and `model.jsx` keep the maker as
written (`ModelJs.ControlledCriticallyDamped`, `ModelJsx.ControlledCriticallyDamped`);
the critical presets the name promises are `IntendedCriticallyDamped` in each
module. `DoAnimations` likewise keeps the frame decision as written
(`AnimationMixin.RequestsNextFrame`); the intended one is
`AnimationMixin.NextFrameIntended`.
