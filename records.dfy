/**
 * The animation record that the advance helpers of the easing, physical and
 * simulation libraries update in place: a current value, the velocity measured
 * over the last step, the time of the last step and whether the animation is done.
 */
module Records {

  /** A snapshot of the mutable fields of an animation record. */
  datatype AnimState = AnimState(value: real, velocity: real, lastTime: real, finished: bool)

  class Anim {
    var value: real
    var velocity: real
    var lastTime: real
    var finished: bool

    function State(): AnimState
      reads this
    {
      AnimState(value, velocity, lastTime, finished)
    }

    /** A fresh, unfinished record. */
    constructor (value: real, velocity: real, lastTime: real)
      ensures State() == AnimState(value, velocity, lastTime, false)
    {
      this.value := value;
      this.velocity := velocity;
      this.lastTime := lastTime;
      this.finished := false;
    }
  }
}
