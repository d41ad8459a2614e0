/**
 * The animation mixin: a component keeps a map from property name to one
 * ongoing animation record, starts records with `animateToState`, cancels them,
 * overwrites properties directly with `setAnimationState`, and advances every
 * record once per frame in `doAnimations`.
 *
 * The host environment appears as plain state: the current time is a
 * parameter, a requested frame is a pending flag and a request counter, a render
 * (`performAnimation`) is a counter, and firing a record's `onEnded` callback
 * appends an entry to a log.
 */
module AnimationMixin {
  import opened Numeric
  import opened Records
  import opened Easing

  /** Identifies a host callback. */
  type CallbackId = nat

  /** A fired `onEnded` callback, with the property whose record it belonged to. */
  datatype Ended = Ended(property: string, callback: CallbackId)

  /** The `fade` option of a request; every field may be omitted. */
  datatype Fade = Fade(duration: Option<real>, easing: Option<Curve>, startingVelocity: Option<real>)

  /**
   * An easing option, told apart in the source by the arity of the function: an
   * easing of progress, a physical function of start offset and start velocity,
   * or a custom function, which the record calls with the progress alone.
   */
  datatype EasingInput =
    | Easing1(f: Curve)
    | Physical2(make: (real, real) -> Curve)
    | Custom(g: Curve)

  /** One entry of the `newState` argument of `animateToState`. */
  datatype Request = Request(endValue: real, duration: Option<real>, easing: Option<EasingInput>,
                             onEnded: Option<CallbackId>, fade: Option<Fade>, startValue: Option<real>)

  /** The two `advance` closures a record can carry, with what they captured. */
  datatype Advancer =
    | Eased(startTime: real, duration: real, fn: Curve)
    | Physical(startTime: real, endValue: real, fn: Curve)
  {
    predicate WellFormed() {
      Eased? ==> duration != 0.0
    }
  }

  /** The tolerance of the physical advance. */
  const Tolerance: real := 0.0001

  /**
   * The record state after its `advance` closure ran at time `now`. The eased
   * closure clamps the progress at 1 and finishes exactly there; the physical one
   * samples its trajectory at the elapsed seconds and settles onto the end value
   * once both value and velocity are within tolerance. Velocities are per
   * millisecond.
   */
  function StepState(adv: Advancer, s: AnimState, now: real): AnimState
    requires adv.WellFormed() && now != s.lastTime
  {
    match adv
    case Eased(startTime, duration, fn) =>
      var pct := Progress(startTime, duration, now);
      var v := fn(pct);
      AnimState(v, (v - s.value) / (now - s.lastTime), now, s.finished || pct == 1.0)
    case Physical(startTime, endValue, fn) =>
      var v := fn((now - startTime) / 1000.0);
      var velocity := (v - s.value) / (now - s.lastTime);
      if Abs(velocity) <= Tolerance && Abs(v - endValue) <= Tolerance
      then AnimState(endValue, velocity, now, true)
      else AnimState(v, velocity, now, s.finished)
  }

  /** An animation record: its mutable state, its callback and its advance closure. */
  class Channel {
    var value: real
    var velocity: real
    var lastTime: real
    var finished: bool
    const onEnded: Option<CallbackId>
    const advance: Advancer

    function State(): AnimState
      reads this
    {
      AnimState(value, velocity, lastTime, finished)
    }

    constructor (value: real, velocity: real, lastTime: real, onEnded: Option<CallbackId>,
                 advance: Advancer)
      ensures State() == AnimState(value, velocity, lastTime, false)
      ensures this.onEnded == onEnded && this.advance == advance
    {
      this.value := value;
      this.velocity := velocity;
      this.lastTime := lastTime;
      this.finished := false;
      this.onEnded := onEnded;
      this.advance := advance;
    }

    /** Runs the record's `advance` closure on the record itself and returns it. */
    method Advance(now: real) returns (r: Channel)
      requires advance.WellFormed() && now != lastTime
      modifies this
      ensures r == this
      ensures State() == StepState(advance, old(State()), now)
    {
      match advance {
        case Eased(startTime, duration, fn) =>
          var percentage := (now - startTime) / duration;
          if percentage >= 1.0 {
            percentage := 1.0;
          }
          var newValue := fn(percentage);
          velocity := (newValue - value) / (now - lastTime);
          lastTime := now;
          value := newValue;
          if percentage == 1.0 {
            finished := true;
          }
        case Physical(startTime, endValue, fn) =>
          var dt := now - startTime;
          var newValue := fn(dt / 1000.0);
          velocity := (newValue - value) / (now - lastTime);
          lastTime := now;
          value := newValue;
          if Abs(velocity) <= Tolerance && Abs(value - endValue) <= Tolerance {
            value := endValue;
            finished := true;
          }
      }
      r := this;
    }
  }

  // ---------------------------------------------------------------------------
  // What animateToState computes for one property
  // ---------------------------------------------------------------------------

  /** The start value: the request's, unless omitted or 0, else the current value. */
  function StartValue(req: Request, current: map<string, real>, p: string): real {
    OrDefault(req.startValue, if p in current then current[p] else 0.0)
  }

  /** The duration in milliseconds: 1000 unless given and non-zero. */
  function AnimDuration(req: Request): (r: real)
    ensures r != 0.0
  {
    OrDefault(req.duration, 1000.0)
  }

  /**
   * The start velocity: the fade's starting velocity if given and non-zero, else
   * the velocity of the cancelled record if there was one and it is non-zero,
   * else 0.
   */
  function StartVelocity(fade: Option<Fade>, cancelled: Option<real>): real {
    var fromFade := FadeVelocity(fade);
    if fromFade.Some? && fromFade.value != 0.0 then fromFade.value
    else if cancelled.Some? && cancelled.value != 0.0 then cancelled.value
    else 0.0
  }

  function FadeVelocity(fade: Option<Fade>): Option<real> {
    if fade.Some? then fade.value.startingVelocity else None
  }

  /** An option that JavaScript would count as truthy: present and non-zero. */
  predicate Given(x: Option<real>) {
    x.Some? && x.value != 0.0
  }

  /** The easing option, by default `cubicInOut`. */
  function EasingOf(req: Request): EasingInput {
    if req.easing.Some? then req.easing.value else Easing1(CubicInOut)
  }

  /** The fade length as a fraction of the animation: 0.5 unless given and non-zero. */
  function FadeDuration(fade: Fade): (r: real)
    ensures r != 0.0
  {
    OrDefault(fade.duration, 0.5)
  }

  function FadeEasing(fade: Fade): Curve {
    if fade.easing.Some? then fade.easing.value else QuadOut
  }

  /**
   * The faded easing: during the first part of the progress it blends, by the
   * fade easing, from the straight line the record was moving on (start value
   * plus the start velocity times the elapsed milliseconds) into the new easing.
   */
  function Blend(fade: Fade, target: Curve, start: real, velocity: real, animDuration: real): Curve {
    var d := FadeDuration(fade);
    var fe := FadeEasing(fade);
    t => if t < d
         then (1.0 - fe(t / d)) * (velocity * t * animDuration + start) + fe(t / d) * target(t)
         else target(t)
  }

  /** The advance closure `animateToState` builds for one request started at `now`. */
  function MakeAdvancer(req: Request, start: real, velocity: real, now: real): (r: Advancer)
    ensures r.WellFormed()
    ensures r.startTime == now
    ensures r.Physical? <==> EasingOf(req).Physical2?
  {
    var duration := AnimDuration(req);
    var end := req.endValue;
    match EasingOf(req)
    case Easing1(f) =>
      var base := Ease(f, start, end);
      Eased(now, duration, if req.fade.Some? then Blend(req.fade.value, base, start, velocity, duration) else base)
    case Physical2(mk) =>
      var pf := mk(start - end, velocity * 1000.0);
      Physical(now, end, t => pf(t) + end)
    case Custom(g) =>
      Eased(now, duration, g)
  }

  // ---------------------------------------------------------------------------
  // Key enumerations. A `for ... in` loop visits the keys of an object once
  // each, in an order the model takes as a parameter.
  // ---------------------------------------------------------------------------

  predicate NoDup(ks: seq<string>) {
    forall i, j :: 0 <= i < j < |ks| ==> ks[i] != ks[j]
  }

  /** The properties of a list of entries, in order. */
  function Properties<V>(entries: seq<(string, V)>): (r: seq<string>)
    ensures |r| == |entries| && forall j :: 0 <= j < |entries| ==> r[j] == entries[j].0
  {
    seq(|entries|, j requires 0 <= j < |entries| => entries[j].0)
  }

  /** `ks` lists the members of `s`, each once. */
  ghost predicate Enumerates(ks: seq<string>, s: set<string>) {
    NoDup(ks) && (forall k :: k in ks <==> k in s)
  }

  /** `m` without the keys of `ks`, removed one after the other. */
  function Without<V>(m: map<string, V>, ks: seq<string>): map<string, V>
    decreases |ks|
  {
    if ks == [] then m else Without(m, ks[..|ks| - 1]) - {ks[|ks| - 1]}
  }

  lemma {:induction false} WithoutMembers<V>(m: map<string, V>, ks: seq<string>)
    ensures forall k :: k in Without(m, ks) <==> k in m && k !in ks
    ensures forall k :: k in Without(m, ks) ==> Without(m, ks)[k] == m[k]
    decreases |ks|
  {
    if ks != [] {
      WithoutMembers(m, ks[..|ks| - 1]);
      assert forall k :: k in ks <==> k in ks[..|ks| - 1] || k == ks[|ks| - 1];
    }
  }

  /** `a` with the entries of `b` for `ks` written over it, one after the other. */
  function Write(a: map<string, real>, b: map<string, real>, ks: seq<string>): map<string, real>
    requires forall k :: k in ks ==> k in b
    decreases |ks|
  {
    if ks == [] then a else Write(a, b, ks[..|ks| - 1])[ks[|ks| - 1] := b[ks[|ks| - 1]]]
  }

  lemma {:induction false} WriteMembers(a: map<string, real>, b: map<string, real>, ks: seq<string>)
    requires forall k :: k in ks ==> k in b
    ensures forall k :: k in Write(a, b, ks) <==> k in a || k in ks
    ensures forall k :: k in ks ==> Write(a, b, ks)[k] == b[k]
    ensures forall k :: k in a && k !in ks ==> Write(a, b, ks)[k] == a[k]
    decreases |ks|
  {
    if ks != [] {
      WriteMembers(a, b, ks[..|ks| - 1]);
      assert forall k :: k in ks <==> k in ks[..|ks| - 1] || k == ks[|ks| - 1];
    }
  }

  /** Writing every key of `b` is the map override `a + b`. */
  lemma WriteAll(a: map<string, real>, b: map<string, real>, ks: seq<string>)
    requires Enumerates(ks, b.Keys)
    ensures Write(a, b, ks) == a + b
  {
    WriteMembers(a, b, ks);
  }

  /** `m` with the keys of `ks` bound to the values of `vs`, one after the other. */
  function Install<V>(m: map<string, V>, ks: seq<string>, vs: seq<V>): map<string, V>
    requires |ks| == |vs|
    decreases |ks|
  {
    if ks == [] then m
    else Install(m, ks[..|ks| - 1], vs[..|vs| - 1])[ks[|ks| - 1] := vs[|vs| - 1]]
  }

  lemma InstallStep<V>(m: map<string, V>, ks: seq<string>, vs: seq<V>, v: V)
    requires |vs| < |ks|
    ensures Install(m, ks[..|vs| + 1], vs + [v]) == Install(m, ks[..|vs|], vs)[ks[|vs|] := v]
  {
    var i := |vs|;
    assert ks[..i + 1][..i] == ks[..i];
    assert (vs + [v])[..i] == vs;
  }

  lemma {:induction false} InstallOutside<V>(m: map<string, V>, ks: seq<string>, vs: seq<V>, k: string)
    requires |ks| == |vs| && k !in ks
    ensures k in Install(m, ks, vs) <==> k in m
    ensures k in m ==> Install(m, ks, vs)[k] == m[k]
    decreases |ks|
  {
    if ks != [] {
      var n := |ks| - 1;
      assert k != ks[n] && k !in ks[..n];
      InstallOutside(m, ks[..n], vs[..n], k);
    }
  }

  lemma InstallMembers<V>(m: map<string, V>, ks: seq<string>, vs: seq<V>)
    requires |ks| == |vs|
    ensures forall k :: k in Install(m, ks, vs) <==> k in m || k in ks
    ensures forall k :: k in m && k !in ks ==> Install(m, ks, vs)[k] == m[k]
    ensures NoDup(ks) ==> forall j :: 0 <= j < |ks| ==> Install(m, ks, vs)[ks[j]] == vs[j]
  {
    InstallDomain(m, ks, vs);
    forall k | k in m && k !in ks
      ensures Install(m, ks, vs)[k] == m[k]
    {
      InstallOutside(m, ks, vs, k);
    }
    if NoDup(ks) {
      InstallValues(m, ks, vs);
    }
  }

  /** The installed keys are the old ones and those of `ks`. */
  lemma {:induction false} InstallDomain<V>(m: map<string, V>, ks: seq<string>, vs: seq<V>)
    requires |ks| == |vs|
    ensures forall k :: k in Install(m, ks, vs) <==> k in m || k in ks
    decreases |ks|
  {
    if ks != [] {
      var n := |ks| - 1;
      InstallDomain(m, ks[..n], vs[..n]);
      assert ks == ks[..n] + [ks[n]];
    }
  }

  /** With distinct keys, each key of `ks` holds its own value. */
  lemma {:induction false} InstallValues<V>(m: map<string, V>, ks: seq<string>, vs: seq<V>)
    requires |ks| == |vs| && NoDup(ks)
    ensures forall j :: 0 <= j < |ks| ==> ks[j] in Install(m, ks, vs) && Install(m, ks, vs)[ks[j]] == vs[j]
    decreases |ks|
  {
    if ks != [] {
      var n := |ks| - 1;
      var w := Install(m, ks, vs);
      InstallValues(m, ks[..n], vs[..n]);
      forall j | 0 <= j < |ks|
        ensures ks[j] in w && w[ks[j]] == vs[j]
      {
        if j < n {
          assert ks[..n][j] == ks[j] && vs[..n][j] == vs[j];
          assert ks[j] != ks[n];
        }
      }
    }
  }

  /** The keys of `ks` whose flag in `fs` is set, in order. */
  function Select(ks: seq<string>, fs: seq<bool>): seq<string>
    requires |ks| == |fs|
    decreases |ks|
  {
    if ks == [] then []
    else Select(ks[..|ks| - 1], fs[..|fs| - 1]) + (if fs[|fs| - 1] then [ks[|ks| - 1]] else [])
  }

  lemma {:induction false} SelectMembers(ks: seq<string>, fs: seq<bool>)
    requires |ks| == |fs| && NoDup(ks)
    ensures forall k :: k in Select(ks, fs) ==> k in ks
    ensures forall j :: 0 <= j < |ks| ==> (ks[j] in Select(ks, fs) <==> fs[j])
    ensures NoDup(Select(ks, fs))
    decreases |ks|
  {
    if ks != [] {
      var n := |ks| - 1;
      var pre, fpre := ks[..n], fs[..n];
      var last := if fs[n] then [ks[n]] else [];
      assert NoDup(pre) by {
        assert forall j :: 0 <= j < n ==> pre[j] == ks[j];
      }
      SelectMembers(pre, fpre);
      var sel := Select(pre, fpre);
      assert Select(ks, fs) == sel + last;
      assert ks[n] !in pre by {
        assert forall j :: 0 <= j < n ==> pre[j] == ks[j] && ks[j] != ks[n];
      }
      forall j | 0 <= j < |ks|
        ensures ks[j] in Select(ks, fs) <==> fs[j]
      {
        if j < n {
          assert pre[j] == ks[j] && fpre[j] == fs[j];
          assert ks[j] != ks[n];
        }
      }
      if fs[n] {
        NoDupAppend(sel, ks[n]);
      } else {
        assert sel + last == sel;
      }
    }
  }

  lemma SelectAppend(ks: seq<string>, fs: seq<bool>, k: string, f: bool)
    requires |ks| == |fs|
    ensures Select(ks + [k], fs + [f]) == Select(ks, fs) + (if f then [k] else [])
  {
    assert (ks + [k])[..|ks|] == ks;
    assert (fs + [f])[..|fs|] == fs;
  }

  lemma NoDupAppend(ks: seq<string>, k: string)
    requires NoDup(ks) && k !in ks
    ensures NoDup(ks + [k])
  {
  }

  /** The flags telling which keys of `ks` have a finished record in `m`. */
  function FinishedFlags(m: map<string, Channel>, ks: seq<string>): (r: seq<bool>)
    reads m.Values
    ensures |r| == |ks|
    decreases |ks|
  {
    if ks == [] then []
    else FinishedFlags(m, ks[..|ks| - 1]) + [ks[|ks| - 1] in m && m[ks[|ks| - 1]].finished]
  }

  lemma {:induction false} FinishedFlagsAt(m: map<string, Channel>, ks: seq<string>, fs: seq<bool>)
    requires |fs| == |ks|
    requires forall j :: 0 <= j < |ks| ==> fs[j] == (ks[j] in m && m[ks[j]].finished)
    ensures FinishedFlags(m, ks) == fs
    decreases |ks|
  {
    if ks != [] {
      var n := |ks| - 1;
      FinishedFlagsAt(m, ks[..n], fs[..n]);
      assert fs == fs[..n] + [fs[n]];
    }
  }

  /** The keys of `ks`, in order, whose record in `m` has finished. */
  function FinishedIn(m: map<string, Channel>, ks: seq<string>): seq<string>
    reads m.Values
  {
    Select(ks, FinishedFlags(m, ks))
  }

  // ---------------------------------------------------------------------------
  // The callback log
  // ---------------------------------------------------------------------------

  /** What cancelling `p` in `m` appends to the callback log. */
  function CancelLog(m: map<string, Channel>, p: string): seq<Ended> {
    if p in m && m[p].onEnded.Some? then [Ended(p, m[p].onEnded.value)] else []
  }

  /** What cancelling the records of `ks` in `m`, one after the other, appends to the log. */
  function Fired(m: map<string, Channel>, ks: seq<string>): seq<Ended>
    decreases |ks|
  {
    if ks == [] then [] else Fired(m, ks[..|ks| - 1]) + CancelLog(m, ks[|ks| - 1])
  }

  lemma FiredStep(m: map<string, Channel>, ks: seq<string>, i: nat)
    requires i < |ks|
    ensures Fired(m, ks[..i + 1]) == Fired(m, ks[..i]) + CancelLog(m, ks[i])
  {
    assert ks[..i + 1][..i] == ks[..i];
  }

  /**
   * Cancelling distinct keys fires, once each and in the order of the keys, the
   * callback of every cancelled record that has one, and nothing else.
   */
  lemma {:induction false} FiredEntries(m: map<string, Channel>, ks: seq<string>)
    requires NoDup(ks)
    ensures forall e :: e in Fired(m, ks) <==>
      e.property in ks && e.property in m && m[e.property].onEnded == Some(e.callback)
    ensures forall i, j :: 0 <= i < j < |Fired(m, ks)| ==>
      Fired(m, ks)[i].property != Fired(m, ks)[j].property
    ensures |Fired(m, ks)| <= |ks|
    decreases |ks|
  {
    if ks != [] {
      var n := |ks| - 1;
      assert NoDup(ks[..n]);
      FiredEntries(m, ks[..n]);
      assert forall k :: k in ks <==> k in ks[..n] || k == ks[n];
      assert ks[n] !in ks[..n];
    }
  }

  /** Cancelling keys one after the other in `m` is cancelling them in its undeleted part. */
  lemma CancelInRest(m: map<string, Channel>, removed: seq<string>, p: string)
    requires p !in removed
    ensures CancelLog(Without(m, removed), p) == CancelLog(m, p)
  {
    WithoutMembers(m, removed);
  }

  /**
   * Each record of `made` was started for the entry of `entries` at the same
   * position, from the animation state `a0` and the records `m0`.
   */
  ghost predicate AllStarted(made: seq<Channel>, entries: seq<(string, Request)>,
                             a0: map<string, real>, m0: map<string, Channel>, now: real)
    reads made, m0.Values
  {
    && |made| <= |entries|
    && forall j :: 0 <= j < |made| ==>
         StartedFor(made[j], entries[j], a0, VelocityOf(m0, entries[j].0), now)
  }

  lemma AllStartedStep(made: seq<Channel>, anim: Channel, entries: seq<(string, Request)>,
                       a0: map<string, real>, m0: map<string, Channel>, now: real)
    requires |made| < |entries| && AllStarted(made, entries, a0, m0, now)
    requires StartedFor(anim, entries[|made|], a0, VelocityOf(m0, entries[|made|].0), now)
    ensures AllStarted(made + [anim], entries, a0, m0, now)
  {
    var next := made + [anim];
    assert forall j :: 0 <= j < |made| ==> next[j] == made[j];
  }

  /** Installing records started for every entry leaves each entry's property on its record. */
  lemma StartedInstalled(m0: map<string, Channel>, entries: seq<(string, Request)>, made: seq<Channel>,
                         a0: map<string, real>, now: real)
    requires |made| == |entries| && NoDup(Properties(entries))
    requires AllStarted(made, entries, a0, m0, now)
    ensures var m := Install(m0, Properties(entries), made);
      && (forall p :: p in m <==> p in m0 || p in Properties(entries))
      && (forall p :: p in m0 && p !in Properties(entries) ==> m[p] == m0[p])
      && (forall j :: 0 <= j < |entries| ==> m[entries[j].0] == made[j])
  {
    InstallMembers(m0, Properties(entries), made);
  }

  /** The states of the records of `m`. */
  ghost function States(m: map<string, Channel>): (r: map<string, AnimState>)
    reads m.Values
    ensures forall p :: p in m ==> p in r && r[p] == m[p].State()
  {
    map p | p in m :: m[p].State()
  }

  /** The state the record of `k` in `m0` reaches by one step at `now` from its state in `s0`. */
  function Stepped(m0: map<string, Channel>, s0: map<string, AnimState>, k: string, now: real): AnimState
    requires k in m0 && k in s0 && m0[k].advance.WellFormed() && s0[k].lastTime != now
  {
    StepState(m0[k].advance, s0[k], now)
  }

  /** Every key of `keys` has a record in `m0` that can step at `now` from its state in `s0`. */
  ghost predicate CanStep(m0: map<string, Channel>, s0: map<string, AnimState>, keys: seq<string>, now: real) {
    forall k :: k in keys ==> k in m0 && k in s0 && m0[k].advance.WellFormed() && s0[k].lastTime != now
  }

  /**
   * The records of `m0` for the first `i` keys of `keys` have taken one step
   * at `now` from the states `s0`; those for the other keys still hold theirs.
   */
  ghost predicate StepsTaken(m0: map<string, Channel>, s0: map<string, AnimState>,
                             keys: seq<string>, i: nat, now: real)
    reads m0.Values
  {
    && i <= |keys| && CanStep(m0, s0, keys, now)
    && (forall j :: 0 <= j < i ==> m0[keys[j]].State() == Stepped(m0, s0, keys[j], now))
    && (forall j :: i <= j < |keys| ==> m0[keys[j]].State() == s0[keys[j]])
  }

  /** The finished flags of the first `n` keys of `keys` after their step. */
  ghost function StepFlags(m0: map<string, Channel>, s0: map<string, AnimState>,
                           keys: seq<string>, n: nat, now: real): (r: seq<bool>)
    requires n <= |keys| && CanStep(m0, s0, keys, now)
    ensures |r| == n
  {
    if n == 0 then [] else StepFlags(m0, s0, keys, n - 1, now) + [Stepped(m0, s0, keys[n - 1], now).finished]
  }

  lemma {:induction false} StepFlagsAt(m0: map<string, Channel>, s0: map<string, AnimState>,
                                       keys: seq<string>, n: nat, now: real)
    requires n <= |keys| && CanStep(m0, s0, keys, now)
    ensures forall j :: 0 <= j < n ==>
      StepFlags(m0, s0, keys, n, now)[j] == Stepped(m0, s0, keys[j], now).finished
  {
    if n > 0 {
      StepFlagsAt(m0, s0, keys, n - 1, now);
    }
  }

  /** The animation state `a0` with the stepped values of the first `n` keys of `keys` written over it. */
  ghost function StepWrites(a0: map<string, real>, m0: map<string, Channel>, s0: map<string, AnimState>,
                            keys: seq<string>, n: nat, now: real): map<string, real>
    requires n <= |keys| && CanStep(m0, s0, keys, now)
  {
    if n == 0 then a0
    else StepWrites(a0, m0, s0, keys, n - 1, now)[keys[n - 1] := Stepped(m0, s0, keys[n - 1], now).value]
  }

  /** After n steps the state holds each stepped key's new value and keeps the other entries. */
  lemma StepWritesMembers(a0: map<string, real>, m0: map<string, Channel>,
                          s0: map<string, AnimState>, keys: seq<string>, n: nat, now: real)
    requires n <= |keys| && CanStep(m0, s0, keys, now) && NoDup(keys)
    ensures forall p :: p in StepWrites(a0, m0, s0, keys, n, now) <==> p in a0 || p in keys[..n]
    ensures forall j :: 0 <= j < n ==>
      StepWrites(a0, m0, s0, keys, n, now)[keys[j]] == Stepped(m0, s0, keys[j], now).value
    ensures forall p :: p in a0 && p !in keys[..n] ==> StepWrites(a0, m0, s0, keys, n, now)[p] == a0[p]
  {
    StepWritesDomain(a0, m0, s0, keys, n, now);
    StepWritesValues(a0, m0, s0, keys, n, now);
    StepWritesRest(a0, m0, s0, keys, n, now);
  }

  lemma {:induction false} StepWritesDomain(a0: map<string, real>, m0: map<string, Channel>,
                                            s0: map<string, AnimState>, keys: seq<string>, n: nat, now: real)
    requires n <= |keys| && CanStep(m0, s0, keys, now)
    ensures forall p :: p in StepWrites(a0, m0, s0, keys, n, now) <==> p in a0 || p in keys[..n]
  {
    if n > 0 {
      StepWritesDomain(a0, m0, s0, keys, n - 1, now);
      assert keys[..n] == keys[..n - 1] + [keys[n - 1]];
    }
  }

  lemma {:induction false} StepWritesValues(a0: map<string, real>, m0: map<string, Channel>,
                                            s0: map<string, AnimState>, keys: seq<string>, n: nat, now: real)
    requires n <= |keys| && CanStep(m0, s0, keys, now) && NoDup(keys)
    ensures forall j :: 0 <= j < n ==>
      keys[j] in StepWrites(a0, m0, s0, keys, n, now) &&
      StepWrites(a0, m0, s0, keys, n, now)[keys[j]] == Stepped(m0, s0, keys[j], now).value
  {
    if n > 0 {
      StepWritesValues(a0, m0, s0, keys, n - 1, now);
      var k := keys[n - 1];
      var w := StepWrites(a0, m0, s0, keys, n, now);
      assert w == StepWrites(a0, m0, s0, keys, n - 1, now)[k := Stepped(m0, s0, k, now).value];
      forall j | 0 <= j < n
        ensures keys[j] in w && w[keys[j]] == Stepped(m0, s0, keys[j], now).value
      {
        if j < n - 1 {
          assert keys[j] != k;
        }
      }
    }
  }

  lemma {:induction false} StepWritesRest(a0: map<string, real>, m0: map<string, Channel>,
                                          s0: map<string, AnimState>, keys: seq<string>, n: nat, now: real)
    requires n <= |keys| && CanStep(m0, s0, keys, now)
    ensures forall p :: p in a0 && p !in keys[..n] ==>
      p in StepWrites(a0, m0, s0, keys, n, now) && StepWrites(a0, m0, s0, keys, n, now)[p] == a0[p]
  {
    if n > 0 {
      StepWritesRest(a0, m0, s0, keys, n - 1, now);
      assert keys[..n] == keys[..n - 1] + [keys[n - 1]];
    }
  }

  /**
   * Once every key of `keys` has stepped: each record holds its stepped state,
   * the flags are the records' finished flags, and the stepped values are
   * written over `a0` for exactly those keys.
   */
  lemma {:induction false} StepsDone(m0: map<string, Channel>, s0: map<string, AnimState>,
                                     a0: map<string, real>, keys: seq<string>, now: real)
    requires NoDup(keys) && StepsTaken(m0, s0, keys, |keys|, now)
    ensures FinishedIn(m0, keys) == StepRemovals(m0, s0, keys, |keys|, now)
    ensures forall p :: p in keys ==> m0[p].State() == StepState(m0[p].advance, s0[p], now)
    ensures var w := StepWrites(a0, m0, s0, keys, |keys|, now);
      && (forall p :: p in w <==> p in a0 || p in keys)
      && (forall p :: p in keys ==> w[p] == m0[p].value)
      && (forall p :: p in a0 && p !in keys ==> w[p] == a0[p])
  {
    StepFlagsAt(m0, s0, keys, |keys|, now);
    FinishedFlagsAt(m0, keys, StepFlags(m0, s0, keys, |keys|, now));
    StepRemovalsSelect(m0, s0, keys, |keys|, now);
    StepWritesMembers(a0, m0, s0, keys, |keys|, now);
    assert keys[..|keys|] == keys;
    forall p | p in keys
      ensures m0[p].State() == StepState(m0[p].advance, s0[p], now)
      ensures StepWrites(a0, m0, s0, keys, |keys|, now)[p] == m0[p].value
    {
      var j :| 0 <= j < |keys| && keys[j] == p;
    }
  }

  /** The keys among the first `n` of `keys` whose record finishes on its step, in order. */
  ghost function StepRemovals(m0: map<string, Channel>, s0: map<string, AnimState>,
                              keys: seq<string>, n: nat, now: real): seq<string>
    requires n <= |keys| && CanStep(m0, s0, keys, now)
  {
    if n == 0 then []
    else StepRemovals(m0, s0, keys, n - 1, now) +
         (if Stepped(m0, s0, keys[n - 1], now).finished then [keys[n - 1]] else [])
  }

  lemma {:induction false} StepRemovalsBefore(m0: map<string, Channel>, s0: map<string, AnimState>,
                                              keys: seq<string>, n: nat, now: real)
    requires n <= |keys| && CanStep(m0, s0, keys, now)
    ensures forall k :: k in StepRemovals(m0, s0, keys, n, now) ==> k in keys[..n]
  {
    if n > 0 {
      StepRemovalsBefore(m0, s0, keys, n - 1, now);
      assert forall k :: k in keys[..n] <==> k in keys[..n - 1] || k == keys[n - 1];
    }
  }

  /** The removals are the keys whose step flag is set. */
  lemma {:induction false} StepRemovalsSelect(m0: map<string, Channel>, s0: map<string, AnimState>,
                                              keys: seq<string>, n: nat, now: real)
    requires n <= |keys| && CanStep(m0, s0, keys, now)
    ensures StepRemovals(m0, s0, keys, n, now) == Select(keys[..n], StepFlags(m0, s0, keys, n, now))
  {
    if n > 0 {
      StepRemovalsSelect(m0, s0, keys, n - 1, now);
      SelectAppend(keys[..n - 1], StepFlags(m0, s0, keys, n - 1, now), keys[n - 1],
                   Stepped(m0, s0, keys[n - 1], now).finished);
      assert keys[..n] == keys[..n - 1] + [keys[n - 1]];
    }
  }

  /**
   * The records `ongoing`, state `state` and log `log` left by stepping the
   * records of `m0` for the first `n` keys of `keys` from the states `s0`:
   * the finished ones are cancelled, firing their callbacks after the log
   * `e0`, and every stepped value is written over the animation state `a0`.
   */
  ghost predicate Stepping(ongoing: map<string, Channel>, state: map<string, real>, log: seq<Ended>,
                           m0: map<string, Channel>, s0: map<string, AnimState>,
                           a0: map<string, real>, e0: seq<Ended>,
                           keys: seq<string>, n: nat, now: real)
  {
    && n <= |keys| && CanStep(m0, s0, keys, now)
    && ongoing == Without(m0, StepRemovals(m0, s0, keys, n, now))
    && state == StepWrites(a0, m0, s0, keys, n, now)
    && log == e0 + Fired(m0, StepRemovals(m0, s0, keys, n, now))
  }

  /** Stepping the next key writes its value and, once it has finished, cancels it. */
  lemma SteppingStep(ongoing: map<string, Channel>, state: map<string, real>, log: seq<Ended>,
                     m0: map<string, Channel>, s0: map<string, AnimState>,
                     a0: map<string, real>, e0: seq<Ended>,
                     keys: seq<string>, n: nat, now: real)
    requires NoDup(keys) && n < |keys|
    requires Stepping(ongoing, state, log, m0, s0, a0, e0, keys, n, now)
    ensures keys[n] in ongoing && ongoing[keys[n]] == m0[keys[n]]
    ensures var p := keys[n];
      var next := Stepped(m0, s0, p, now);
      Stepping(if next.finished then ongoing - {p} else ongoing, state[p := next.value],
               log + (if next.finished then CancelLog(ongoing, p) else []),
               m0, s0, a0, e0, keys, n + 1, now)
  {
    var p := keys[n];
    var removed := StepRemovals(m0, s0, keys, n, now);
    assert p !in removed by {
      assert p !in keys[..n];
      StepRemovalsBefore(m0, s0, keys, n, now);
    }
    assert p in ongoing && ongoing[p] == m0[p] by {
      WithoutMembers(m0, removed);
    }
    if Stepped(m0, s0, p, now).finished {
      SteppingFinishes(ongoing, state, log, m0, s0, a0, e0, keys, n, now);
    } else {
      assert StepRemovals(m0, s0, keys, n + 1, now) == removed by {
        assert removed + [] == removed;
      }
    }
  }

  lemma SteppingFinishes(ongoing: map<string, Channel>, state: map<string, real>, log: seq<Ended>,
                         m0: map<string, Channel>, s0: map<string, AnimState>,
                         a0: map<string, real>, e0: seq<Ended>,
                         keys: seq<string>, n: nat, now: real)
    requires n < |keys| && Stepping(ongoing, state, log, m0, s0, a0, e0, keys, n, now)
    requires keys[n] !in StepRemovals(m0, s0, keys, n, now)
    requires Stepped(m0, s0, keys[n], now).finished
    ensures Stepping(ongoing - {keys[n]}, state[keys[n] := Stepped(m0, s0, keys[n], now).value],
                     log + CancelLog(ongoing, keys[n]), m0, s0, a0, e0, keys, n + 1, now)
  {
    var p := keys[n];
    var removed := StepRemovals(m0, s0, keys, n, now);
    var removed' := StepRemovals(m0, s0, keys, n + 1, now);
    var cancel := CancelLog(m0, p);
    assert removed' == removed + [p];
    assert state[p := Stepped(m0, s0, p, now).value] == StepWrites(a0, m0, s0, keys, n + 1, now);
    assert ongoing - {p} == Without(m0, removed') by {
      WithoutAppend(m0, removed, p);
    }
    assert CancelLog(ongoing, p) == cancel by {
      CancelInRest(m0, removed, p);
    }
    assert e0 + Fired(m0, removed') == (e0 + Fired(m0, removed)) + cancel by {
      FiredAppend(m0, removed, p);
    }
  }

  lemma WithoutAppend<V>(m: map<string, V>, ks: seq<string>, k: string)
    ensures Without(m, ks + [k]) == Without(m, ks) - {k}
  {
    assert (ks + [k])[..|ks|] == ks;
  }

  lemma FiredAppend(m: map<string, Channel>, ks: seq<string>, k: string)
    ensures Fired(m, ks + [k]) == Fired(m, ks) + CancelLog(m, k)
  {
    assert (ks + [k])[..|ks|] == ks;
  }

  /** The record of `keys[i]` is none of the records of the other keys. */
  lemma RecordsDistinct(m: map<string, Channel>, keys: seq<string>, i: nat)
    requires Registry(m) && NoDup(keys) && i < |keys| && forall k :: k in keys ==> k in m
    ensures forall j :: 0 <= j < |keys| && j != i ==> m[keys[j]] != m[keys[i]]
  {
    forall j | 0 <= j < |keys| && j != i
      ensures m[keys[j]] != m[keys[i]]
    {
      assert keys[j] != keys[i];
    }
  }

  /**
   * Whether `doAnimations` requests another frame, given its records before and
   * after the loop: only a pass whose removals emptied the map stops the frames.
   */
  function RequestsNextFrame<V>(before: map<string, V>, after: map<string, V>): bool {
    !(before != map[] && after == map[])
  }

  /**
   * As written, a pass that starts with no records requests another frame; such
   * a pass ends with no records, so once the map is emptied outside the loop
   * (by `setAnimationState` or `cancelAnimation`) while a frame is pending, every
   * later frame renders and requests the next.
   */
  lemma IdlePassKeepsLooping<V>(before: map<string, V>, after: map<string, V>)
    ensures RequestsNextFrame<V>(map[], map[])
    ensures after == map[] ==> (RequestsNextFrame(before, after) <==> before == map[])
  {
  }

  /** As intended: another frame exactly while records remain. */
  function NextFrameIntended<V>(after: map<string, V>): bool {
    after != map[]
  }

  /**
   * The intended decision stops the frames whenever no record is left, and
   * agrees with the one as written on every pass that starts with records.
   */
  lemma IntendedStopsWhenIdle<V>(before: map<string, V>, after: map<string, V>)
    ensures after == map[] ==> !NextFrameIntended(after)
    ensures before != map[] ==> NextFrameIntended(after) == RequestsNextFrame(before, after)
  {
  }

  /** Distinct properties hold distinct records, each with a well-formed advance closure. */
  ghost predicate Registry(m: map<string, Channel>) {
    && (forall p, q :: p in m && q in m && p != q ==> m[p] != m[q])
    && (forall p :: p in m ==> m[p].advance.WellFormed())
  }

  /** The velocity of the record `p` of `m`, if there is one. */
  function VelocityOf(m: map<string, Channel>, p: string): Option<real>
    reads m.Values
  {
    if p in m then Some(m[p].velocity) else None
  }

  /** The record `animateToState` stores for request `req`. */
  ghost predicate Started(c: Channel, req: Request, start: real, velocity: real, now: real)
    reads c
  {
    && c.State() == AnimState(start, velocity, now, false)
    && c.onEnded == req.onEnded
    && c.advance == MakeAdvancer(req, start, velocity, now)
  }

  /** `Started` for an entry of `animateToState`, given the state it started from. */
  ghost predicate StartedFor(c: Channel, entry: (string, Request), current: map<string, real>,
                             cancelled: Option<real>, now: real)
    reads c
  {
    Started(c, entry.1, StartValue(entry.1, current, entry.0), StartVelocity(entry.1.fade, cancelled), now)
  }

  class AnimatedComponent {
    var animationState: map<string, real>
    var ongoing: map<string, Channel>
    var framePending: bool
    var frameRequests: nat
    var renders: nat
    var ended: seq<Ended>

    ghost predicate Valid()
      reads this
    {
      Registry(ongoing)
    }

    /** `componentDidMount`: the initial animation state and the first render. */
    constructor (initial: map<string, real>)
      ensures Valid()
      ensures animationState == initial && ongoing == map[] && ended == []
      ensures !framePending && frameRequests == 0 && renders == 1
    {
      animationState := initial;
      ongoing := map[];
      framePending := false;
      frameRequests := 0;
      renders := 1;
      ended := [];
    }

    /**
     * `cancelAnimation(p)`: on an absent property nothing changes and nothing
     * is returned; otherwise the record's callback fires, the record is removed
     * and returned.
     */
    method CancelAnimation(p: string) returns (r: Option<Channel>)
      requires Valid()
      modifies this
      ensures Valid()
      ensures r == (if p in old(ongoing) then Some(old(ongoing)[p]) else None)
      ensures ongoing == old(ongoing) - {p}
      ensures ended == old(ended) + CancelLog(old(ongoing), p)
      ensures animationState == old(animationState)
      ensures framePending == old(framePending) && frameRequests == old(frameRequests)
      ensures renders == old(renders)
    {
      if p in ongoing {
        var anim := ongoing[p];
        if anim.onEnded.Some? {
          ended := ended + [Ended(p, anim.onEnded.value)];
        }
        ongoing := ongoing - {p};
        r := Some(anim);
      } else {
        r := None;
      }
    }

    /**
     * `setAnimationState(newState)`, visiting the properties in the order
     * `keys`: each has its record cancelled and its value overwritten, then the
     * component renders once.
     */
    method SetAnimationState(newState: map<string, real>, keys: seq<string>)
      requires Valid() && Enumerates(keys, newState.Keys)
      modifies this
      ensures Valid()
      ensures animationState == old(animationState) + newState
      ensures ongoing == Without(old(ongoing), keys)
      ensures ended == old(ended) + Fired(old(ongoing), keys)
      ensures renders == old(renders) + 1
      ensures framePending == old(framePending) && frameRequests == old(frameRequests)
    {
      ghost var m0, a0, e0 := ongoing, animationState, ended;
      for i := 0 to |keys|
        invariant Valid()
        invariant WrittenUpTo(m0, a0, e0, newState, keys, i)
        invariant renders == old(renders)
        invariant framePending == old(framePending) && frameRequests == old(frameRequests)
      {
        SetEntry(m0, a0, e0, newState, keys, i);
      }
      assert keys[..|keys|] == keys;
      WriteAll(a0, newState, keys);
      Render();
    }

    /** The first `n` properties of `keys` have been cancelled and overwritten from `newState`. */
    ghost predicate WrittenUpTo(m0: map<string, Channel>, a0: map<string, real>, e0: seq<Ended>,
                                newState: map<string, real>, keys: seq<string>, n: nat)
      reads this
    {
      && n <= |keys| && (forall k :: k in keys ==> k in newState)
      && animationState == Write(a0, newState, keys[..n])
      && ongoing == Without(m0, keys[..n])
      && ended == e0 + Fired(m0, keys[..n])
    }

    /** One iteration of `setAnimationState`: cancels and overwrites `keys[i]`. */
    method SetEntry(ghost m0: map<string, Channel>, ghost a0: map<string, real>, ghost e0: seq<Ended>,
                    newState: map<string, real>, keys: seq<string>, i: nat)
      requires Valid() && NoDup(keys) && i < |keys|
      requires WrittenUpTo(m0, a0, e0, newState, keys, i)
      modifies this
      ensures Valid() && WrittenUpTo(m0, a0, e0, newState, keys, i + 1)
      ensures renders == old(renders)
      ensures framePending == old(framePending) && frameRequests == old(frameRequests)
    {
      var p := keys[i];
      var done := keys[..i];
      assert keys[..i + 1] == done + [p];
      assert p !in done;
      CancelInRest(m0, done, p);
      WithoutAppend(m0, done, p);
      FiredAppend(m0, done, p);
      assert Write(a0, newState, done + [p]) == Write(a0, newState, done)[p := newState[p]] by {
        assert (done + [p])[..i] == done;
      }
      var _ := CancelAnimation(p);
      animationState := animationState[p := newState[p]];
    }

    /** The component renders once more, changing nothing else. */
    method Render()
      modifies this
      ensures renders == old(renders) + 1
      ensures animationState == old(animationState) && ongoing == old(ongoing) && ended == old(ended)
      ensures framePending == old(framePending) && frameRequests == old(frameRequests)
    {
      renders := renders + 1;
    }

    /**
     * `animateToState(newState)`, with the entries of `newState` in the order
     * its loop visits them: each property has its record cancelled and a fresh
     * record stored, starting from the start value with the start velocity and
     * following the requested easing; then a frame is requested unless one is
     * pending.
     */
    method AnimateToState(newState: seq<(string, Request)>, now: real)
      requires Valid() && NoDup(Properties(newState))
      requires forall j :: 0 <= j < |newState| ==>
        Given(newState[j].1.startValue) || newState[j].0 in animationState
      modifies this
      ensures Valid()
      ensures forall p :: p in ongoing <==> p in old(ongoing) || p in Properties(newState)
      ensures forall p :: p in old(ongoing) && p !in Properties(newState) ==> ongoing[p] == old(ongoing)[p]
      ensures forall j :: 0 <= j < |newState| ==>
        && fresh(ongoing[newState[j].0])
        && StartedFor(ongoing[newState[j].0], newState[j], old(animationState),
                      old(VelocityOf(ongoing, newState[j].0)), now)
      ensures ended == old(ended) + Fired(old(ongoing), Properties(newState))
      ensures animationState == old(animationState) && renders == old(renders)
      ensures framePending
      ensures frameRequests == old(frameRequests) + (if old(framePending) then 0 else 1)
    {
      ghost var made := StartAll(newState, now);
      ghost var keys := Properties(newState);
      assert keys[..|newState|] == keys;
      StartedInstalled(old(ongoing), newState, made, old(animationState), now);
      RequestFrame();
    }

    /** Requests a frame unless one is pending, changing nothing else. */
    method RequestFrame()
      modifies this
      ensures animationState == old(animationState) && ongoing == old(ongoing) && ended == old(ended)
      ensures renders == old(renders) && framePending
      ensures frameRequests == old(frameRequests) + (if old(framePending) then 0 else 1)
    {
      if !framePending {
        framePending := true;
        frameRequests := frameRequests + 1;
      }
    }

    /**
     * The first `|made|` entries of `entries` have been installed, as records
     * `made`, into the map of records `m0`, firing the callbacks of the
     * records they replaced after the log `e0`.
     */
    ghost predicate InstalledUpTo(m0: map<string, Channel>, e0: seq<Ended>,
                                  entries: seq<(string, Request)>, made: seq<Channel>)
      reads this
    {
      && |made| <= |entries|
      && ongoing == Install(m0, Properties(entries)[..|made|], made)
      && ended == e0 + Fired(m0, Properties(entries)[..|made|])
    }

    /**
     * The loop of `animateToState`: start every entry, in order. Returns the
     * records it made.
     */
    method StartAll(newState: seq<(string, Request)>, now: real) returns (ghost made: seq<Channel>)
      requires Valid() && NoDup(Properties(newState))
      modifies this
      ensures Valid() && |made| == |newState|
      ensures InstalledUpTo(old(ongoing), old(ended), newState, made)
      ensures AllStarted(made, newState, old(animationState), old(ongoing), now)
      ensures forall j :: 0 <= j < |made| ==> fresh(made[j])
      ensures animationState == old(animationState) && renders == old(renders)
      ensures framePending == old(framePending) && frameRequests == old(frameRequests)
    {
      made := [];
      assert Properties(newState)[..0] == [];
      for i := 0 to |newState|
        invariant Valid()
        invariant |made| == i
        invariant InstalledUpTo(old(ongoing), old(ended), newState, made)
        invariant AllStarted(made, newState, old(animationState), old(ongoing), now)
        invariant forall j :: 0 <= j < i ==> fresh(made[j])
        invariant animationState == old(animationState) && renders == old(renders)
        invariant framePending == old(framePending) && frameRequests == old(frameRequests)
      {
        var anim := StartEntry(old(ongoing), old(animationState), old(ended), newState, i, made, now);
        made := made + [anim];
      }
    }

    /** One pass of the loop of `animateToState`: start the next entry. */
    method StartEntry(ghost m0: map<string, Channel>, ghost a0: map<string, real>, ghost e0: seq<Ended>,
                      entries: seq<(string, Request)>, i: nat, ghost made: seq<Channel>, now: real)
      returns (anim: Channel)
      requires Valid() && NoDup(Properties(entries)) && i == |made| < |entries|
      requires InstalledUpTo(m0, e0, entries, made) && animationState == a0
      requires AllStarted(made, entries, a0, m0, now)
      modifies this
      ensures Valid() && fresh(anim)
      ensures InstalledUpTo(m0, e0, entries, made + [anim])
      ensures AllStarted(made + [anim], entries, a0, m0, now)
      ensures animationState == old(animationState) && renders == old(renders)
      ensures framePending == old(framePending) && frameRequests == old(frameRequests)
    {
      ghost var keys := Properties(entries);
      var p := entries[i].0;
      var req := entries[i].1;
      assert p !in keys[..i];
      InstallOutside(m0, keys[..i], made, p);
      assert CancelLog(ongoing, p) == CancelLog(m0, p);
      ghost var velocity := VelocityOf(m0, p);
      assert VelocityOf(ongoing, p) == velocity;
      FiredStep(m0, keys, i);
      ghost var start := StartValue(req, a0, p);
      anim := StartOne(p, req, now);
      InstallStep(m0, keys, made, anim);
      assert Started(anim, req, start, StartVelocity(req.fade, velocity), now);
      assert VelocityOf(m0, p) == velocity;
      assert |made + [anim]| == i + 1;
      assert ongoing == Install(m0, keys[..i + 1], made + [anim]);
      assert ended == e0 + Fired(m0, keys[..i + 1]);
      AllStartedStep(made, anim, entries, a0, m0, now);
    }

    /**
     * The body of the loop of `animateToState` for property `p`: cancel its
     * record and store a fresh one for request `req`.
     */
    method StartOne(p: string, req: Request, now: real) returns (anim: Channel)
      requires Valid()
      modifies this
      ensures Valid()
      ensures fresh(anim) && ongoing == old(ongoing)[p := anim]
      ensures Started(anim, req, StartValue(req, animationState, p),
                      StartVelocity(req.fade, old(VelocityOf(ongoing, p))), now)
      ensures ended == old(ended) + CancelLog(old(ongoing), p)
      ensures animationState == old(animationState) && renders == old(renders)
      ensures framePending == old(framePending) && frameRequests == old(frameRequests)
    {
      var startValue := StartValue(req, animationState, p);
      var canceledAnim := CancelAnimation(p);
      var cancelledVelocity := if canceledAnim.Some? then Some(canceledAnim.value.velocity) else None;
      var velocity := StartVelocity(req.fade, cancelledVelocity);
      anim := new Channel(startValue, velocity, now, req.onEnded,
                          MakeAdvancer(req, startValue, velocity, now));
      ongoing := ongoing[p := anim];
    }

    /**
     * The body of the loop of `doAnimations` for property `p`: advance its
     * record, write its value, and cancel it once finished. Returns whether it
     * finished.
     */
    method StepOne(p: string, now: real) returns (fin: bool)
      requires Valid() && p in ongoing && ongoing[p].lastTime != now
      modifies this, ongoing[p]
      ensures Valid()
      ensures old(ongoing)[p].State() == StepState(old(ongoing)[p].advance, old(ongoing[p].State()), now)
      ensures fin == old(ongoing)[p].finished
      ensures animationState == old(animationState)[p := old(ongoing)[p].value]
      ensures ongoing == if fin then old(ongoing) - {p} else old(ongoing)
      ensures ended == old(ended) + (if fin then CancelLog(old(ongoing), p) else [])
      ensures renders == old(renders)
      ensures framePending == old(framePending) && frameRequests == old(frameRequests)
    {
      var anim := ongoing[p];
      var newAnim := anim.Advance(now);
      ongoing := ongoing[p := newAnim];
      animationState := animationState[p := newAnim.value];
      fin := newAnim.finished;
      if fin {
        var _ := CancelAnimation(p);
      }
    }

    /**
     * `doAnimations()` at time `now`, visiting the records in the order `keys`:
     * every record is advanced and its value written into the animation state;
     * finished records are cancelled, firing their callbacks; the component
     * renders once; and a new frame is requested unless a removal emptied the
     * map of records, in which case no frame is pending any more. A pass that
     * starts with no records requests a frame.
     */
    method DoAnimations(keys: seq<string>, now: real)
      requires Valid() && Enumerates(keys, ongoing.Keys)
      requires forall p :: p in ongoing ==> ongoing[p].lastTime != now
      modifies this, ongoing.Values
      ensures Valid()
      ensures forall p :: p in old(ongoing) ==>
        old(ongoing)[p].State() == StepState(old(ongoing)[p].advance, old(ongoing[p].State()), now)
      ensures forall p :: p in animationState <==> p in old(animationState) || p in old(ongoing)
      ensures forall p :: p in old(ongoing) ==> animationState[p] == old(ongoing)[p].value
      ensures forall p :: p in old(animationState) && p !in old(ongoing) ==>
        animationState[p] == old(animationState)[p]
      ensures ongoing == Without(old(ongoing), FinishedIn(old(ongoing), keys))
      ensures ended == old(ended) + Fired(old(ongoing), FinishedIn(old(ongoing), keys))
      ensures renders == old(renders) + 1
      ensures framePending == RequestsNextFrame(old(ongoing), ongoing)
      ensures frameRequests == old(frameRequests) + (if framePending then 1 else 0)
    {
      var finished := StepAll(keys, now);
      EndPass(finished);
    }

    /**
     * The end of `doAnimations`: render once, then request the next frame
     * unless the pass finished the last record, in which case no frame is
     * pending any more.
     */
    method EndPass(finished: bool)
      modifies this
      ensures animationState == old(animationState) && ongoing == old(ongoing) && ended == old(ended)
      ensures renders == old(renders) + 1
      ensures framePending == !finished
      ensures frameRequests == old(frameRequests) + (if finished then 0 else 1)
    {
      renders := renders + 1;
      if !finished {
        framePending := true;
        frameRequests := frameRequests + 1;
      } else {
        framePending := false;
      }
    }

    /**
     * The loop of `doAnimations`: every record is advanced and its value
     * written into the animation state, and finished records are cancelled.
     * Returns whether a removal emptied the map of records.
     */
    method StepAll(keys: seq<string>, now: real) returns (finished: bool)
      requires Valid() && Enumerates(keys, ongoing.Keys)
      requires forall p :: p in ongoing ==> ongoing[p].lastTime != now
      modifies this, ongoing.Values
      ensures Valid()
      ensures forall p :: p in old(ongoing) ==>
        old(ongoing)[p].State() == StepState(old(ongoing)[p].advance, old(ongoing[p].State()), now)
      ensures forall p :: p in animationState <==> p in old(animationState) || p in old(ongoing)
      ensures forall p :: p in old(ongoing) ==> animationState[p] == old(ongoing)[p].value
      ensures forall p :: p in old(animationState) && p !in old(ongoing) ==>
        animationState[p] == old(animationState)[p]
      ensures ongoing == Without(old(ongoing), FinishedIn(old(ongoing), keys))
      ensures ended == old(ended) + Fired(old(ongoing), FinishedIn(old(ongoing), keys))
      ensures finished == (ongoing == map[] && old(ongoing) != map[])
      ensures renders == old(renders)
      ensures framePending == old(framePending) && frameRequests == old(frameRequests)
    {
      ghost var s0 := States(ongoing);
      finished := StepLoop(s0, keys, now);
      StepsDone(old(ongoing), s0, old(animationState), keys, now);
    }

    /** `Stepping` for the component's records, state and log. */
    ghost predicate SteppedUpTo(m0: map<string, Channel>, s0: map<string, AnimState>,
                                a0: map<string, real>, e0: seq<Ended>,
                                keys: seq<string>, n: nat, now: real)
      reads this
    {
      Stepping(ongoing, animationState, ended, m0, s0, a0, e0, keys, n, now)
    }

    /**
     * The loop of `doAnimations`, stated on the states `s0` the records held
     * before it. Returns whether a removal emptied the map of records.
     */
    method StepLoop(ghost s0: map<string, AnimState>, keys: seq<string>, now: real)
      returns (finished: bool)
      requires Valid() && Enumerates(keys, ongoing.Keys)
      requires forall p :: p in ongoing ==> p in s0 && s0[p] == ongoing[p].State() && s0[p].lastTime != now
      modifies this, ongoing.Values
      ensures Valid() && StepsTaken(old(ongoing), s0, keys, |keys|, now)
      ensures SteppedUpTo(old(ongoing), s0, old(animationState), old(ended), keys, |keys|, now)
      ensures finished == (ongoing == map[] && old(ongoing) != map[])
      ensures renders == old(renders)
      ensures framePending == old(framePending) && frameRequests == old(frameRequests)
    {
      ghost var m0 := ongoing;
      finished := false;
      for i := 0 to |keys|
        invariant Valid()
        invariant StepsTaken(m0, s0, keys, i, now)
        invariant SteppedUpTo(m0, s0, old(animationState), old(ended), keys, i, now)
        invariant finished == (ongoing == map[] && m0 != map[])
        invariant renders == old(renders)
        invariant framePending == old(framePending) && frameRequests == old(frameRequests)
      {
        SteppingStep(ongoing, animationState, ended, m0, s0, old(animationState), old(ended), keys, i, now);
        var fin := StepEntry(m0, s0, keys, i, now);
        if fin && |ongoing| == 0 {
          finished := true;
        }
      }
    }

    /** One pass of the loop of `doAnimations`: step the record of `keys[i]`. */
    method StepEntry(ghost m0: map<string, Channel>, ghost s0: map<string, AnimState>,
                     keys: seq<string>, i: nat, now: real)
      returns (fin: bool)
      requires Registry(m0) && NoDup(keys) && i < |keys| && StepsTaken(m0, s0, keys, i, now)
      requires Valid() && keys[i] in ongoing && ongoing[keys[i]] == m0[keys[i]]
      modifies this, m0[keys[i]]
      ensures Valid() && StepsTaken(m0, s0, keys, i + 1, now)
      ensures fin == Stepped(m0, s0, keys[i], now).finished
      ensures animationState == old(animationState)[keys[i] := Stepped(m0, s0, keys[i], now).value]
      ensures ongoing == if fin then old(ongoing) - {keys[i]} else old(ongoing)
      ensures ended == old(ended) + (if fin then CancelLog(old(ongoing), keys[i]) else [])
      ensures renders == old(renders)
      ensures framePending == old(framePending) && frameRequests == old(frameRequests)
    {
      RecordsDistinct(m0, keys, i);
      fin := StepOne(keys[i], now);
    }
  }

  // ---------------------------------------------------------------------------
  // Properties of the record a request builds
  // ---------------------------------------------------------------------------

  /**
   * The start velocity prefers a non-zero fade velocity, then a non-zero
   * velocity of the cancelled record, and is 0 exactly when neither exists.
   */
  lemma StartVelocityChoice(fade: Option<Fade>, cancelled: Option<real>)
    ensures var r := StartVelocity(fade, cancelled);
      && (Given(FadeVelocity(fade)) ==> r == FadeVelocity(fade).value)
      && (!Given(FadeVelocity(fade)) && Given(cancelled) ==> r == cancelled.value)
      && (r == 0.0 <==> !Given(FadeVelocity(fade)) && !Given(cancelled))
  {
  }

  /**
   * The defaults, each a JavaScript `||` in which 0 counts as absent: a duration
   * that is omitted or 0 is 1000 ms, a start value that is omitted or 0 is the
   * current value, and a fade length that is omitted or 0 is half the animation;
   * a given non-zero value is kept. An omitted easing is `cubicInOut` and an
   * omitted fade easing is `quadOut`.
   */
  lemma Defaults(req: Request, fade: Fade, current: map<string, real>, p: string)
    ensures !Given(req.duration) ==> AnimDuration(req) == 1000.0
    ensures Given(req.duration) ==> AnimDuration(req) == req.duration.value
    ensures req.easing.None? ==> EasingOf(req) == Easing1(CubicInOut)
    ensures req.easing.Some? ==> EasingOf(req) == req.easing.value
    ensures !Given(req.startValue) && p in current ==> StartValue(req, current, p) == current[p]
    ensures Given(req.startValue) ==> StartValue(req, current, p) == req.startValue.value
    ensures !Given(fade.duration) ==> FadeDuration(fade) == 0.5
    ensures Given(fade.duration) ==> FadeDuration(fade) == fade.duration.value
    ensures fade.easing.None? ==> FadeEasing(fade) == QuadOut
  {
  }

  /** After the fade, the blended easing is the new easing itself. */
  lemma BlendAfterFade(fade: Fade, target: Curve, start: real, velocity: real, animDuration: real, t: real)
    requires t >= FadeDuration(fade)
    ensures Blend(fade, target, start, velocity, animDuration)(t) == target(t)
  {
  }

  /**
   * At progress 0 of a fade of positive length whose easing starts at 0 (the
   * default `quadOut` does), the blended easing is at the start value.
   */
  lemma {:induction false} BlendAtZero(fade: Fade, target: Curve, start: real, velocity: real,
                                       animDuration: real)
    requires 0.0 < FadeDuration(fade) && FadeEasing(fade)(0.0) == 0.0
    ensures Blend(fade, target, start, velocity, animDuration)(0.0) == start
    ensures fade.easing.None? ==> FadeEasing(fade)(0.0) == 0.0
  {
    var d := FadeDuration(fade);
    assert 0.0 / d == 0.0;
    assert velocity * 0.0 * animDuration == 0.0;
    PolynomialEasings();
  }

  /**
   * A one-argument easing that maps 0 to 0 and 1 to 1, without a fade or with a
   * fade no longer than the animation, brings the record exactly to the end
   * value and finishes it at the first frame at or after the end of its
   * duration.
   */
  lemma {:induction false} EasedChannelEnds(req: Request, start: real, velocity: real, startTime: real,
                                            s: AnimState, now: real)
    requires EasingOf(req).Easing1? && IsEasing(EasingOf(req).f)
    requires req.fade.None? || FadeDuration(req.fade.value) <= 1.0
    requires 0.0 < AnimDuration(req) && startTime + AnimDuration(req) <= now && now != s.lastTime
    ensures var r := StepState(MakeAdvancer(req, start, velocity, startTime), s, now);
      r.value == req.endValue && r.finished && r.lastTime == now
  {
    DivAtLeastOne(now - startTime, AnimDuration(req));
    EaseEndpoints(EasingOf(req).f, start, req.endValue);
  }

  /**
   * Before the end of its duration an eased record follows its easing at the
   * elapsed fraction and does not finish.
   */
  lemma {:induction false} EasedChannelRunning(req: Request, start: real, velocity: real, startTime: real,
                                               s: AnimState, now: real)
    requires !EasingOf(req).Physical2?
    requires 0.0 < AnimDuration(req) && now < startTime + AnimDuration(req) && now != s.lastTime
    ensures var adv := MakeAdvancer(req, start, velocity, startTime);
      var r := StepState(adv, s, now);
      r.value == adv.fn((now - startTime) / AnimDuration(req)) && r.finished == s.finished
  {
    DivBelowOne(now - startTime, AnimDuration(req));
  }

  /**
   * A physical easing ignores the fade and the duration: the record samples the
   * function built from the start offset and the start velocity in units per
   * second, shifted by the end value, so when that function starts at its offset
   * the record starts at its start value. A step settles onto the end value
   * exactly when sample and velocity are within tolerance.
   */
  lemma {:induction false} PhysicalChannel(req: Request, start: real, velocity: real, startTime: real,
                                           s: AnimState, now: real)
    requires EasingOf(req).Physical2? && now != s.lastTime
    ensures var adv := MakeAdvancer(req, start, velocity, startTime);
      var pf := EasingOf(req).make(start - req.endValue, velocity * 1000.0);
      && adv == Physical(startTime, req.endValue, adv.fn)
      && (forall t :: adv.fn(t) == pf(t) + req.endValue)
      && (pf(0.0) == start - req.endValue ==> adv.fn(0.0) == start)
    ensures var adv := MakeAdvancer(req, start, velocity, startTime);
      var r := StepState(adv, s, now);
      var sample := adv.fn((now - startTime) / 1000.0);
      var measured := (sample - s.value) / (now - s.lastTime);
      && r.lastTime == now && r.velocity == measured
      && (Abs(measured) <= Tolerance && Abs(sample - req.endValue) <= Tolerance ==>
            r.value == req.endValue && r.finished)
      && (!(Abs(measured) <= Tolerance && Abs(sample - req.endValue) <= Tolerance) ==>
            r.value == sample && r.finished == s.finished)
  {
  }

  /**
   * A linear animation to 1 with the default duration: half-way through it is at
   * 0.5 and moving at 0.001 per millisecond; at 1000 ms it is at 1 and finished.
   */
  lemma {:induction false} LinearScenario()
    ensures var req := Request(1.0, None, Some(Easing1(Linear)), None, None, Some(0.0));
      var adv := MakeAdvancer(req, 0.0, 0.0, 0.0);
      var half := StepState(adv, AnimState(0.0, 0.0, 0.0, false), 500.0);
      var done := StepState(adv, half, 1000.0);
      && half == AnimState(0.5, 0.001, 500.0, false)
      && done == AnimState(1.0, 0.001, 1000.0, true)
  {
    var req := Request(1.0, None, Some(Easing1(Linear)), None, None, Some(0.0));
    assert AnimDuration(req) == 1000.0;
    assert Progress(0.0, 1000.0, 500.0) == 0.5;
    assert Progress(0.0, 1000.0, 1000.0) == 1.0;
  }
}
