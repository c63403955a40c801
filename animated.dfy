/** `Animated` (animation/src/animated.rs): a value that follows a blend of animations,
    timed by the coordinator's cycle times. `clock` stands for `Instant::now()` where the
    coordinator opens a cycle. */
module Animated {
  import opened Wrappers
  import Coordinator
  import opened BlendedAnimations

  /** `AnimatedInner::final_value`: the top animation's target, or the current value. */
  function FinalOf<T>(anims: seq<Animation<T>>, value: T): (v: T)
    ensures anims != [] ==> v == anims[|anims| - 1].to
    ensures anims == [] ==> v == value
  {
    if anims == [] then value else anims[|anims| - 1].to
  }

  /** The value `value()` settles on: with animations, their blend at the cycle time (the
      stored value when there is none). */
  function Current<T>(anims: seq<Animation<T>>, value: T, instant: int, lerp: Interpolator<T>): T {
    if anims == [] then value else Blended(anims, instant, lerp, |anims|)
  }

  /** After `animate` the final value is the new target, whatever the stack held. */
  lemma FinalAfterAnimate<T>(anims: seq<Animation<T>>, value: T, start: int, target: T, duration: nat, interpolation: Interpolation)
    ensures FinalOf(anims + [Animation(value, target, start, duration, interpolation)], value) == target
  {
  }

  /** With a single animation that has reached its end, the value read is its target
      exactly, and the stack is emptied. */
  lemma EndedAnimationSettles<T>(a: Animation<T>, value: T, instant: int, lerp: Interpolator<T>)
    requires forall x, y :: lerp.interpolate(x, y, 1.0) == y
    requires a.startTime + a.duration <= instant
    ensures Current([a], value, instant, lerp) == a.to
    ensures Trimmed([a], instant) == []
  {
    assert Weight([a], 0, instant) == 1.0;
    assert FirstContributing([a], instant, 1) == 0;
  }

  class Animated<T(==)> {
    const coordinator: Coordinator.AnimationCoordinator
    var value: T
    const animation: BlendedAnimation<T>

    /** `new`: the value, no animations. */
    constructor(coordinator: Coordinator.AnimationCoordinator, value: T, lerp: Interpolator<T>)
      ensures this.coordinator == coordinator && this.value == value
      ensures fresh(animation) && animation.animations == [] && animation.lerp == lerp
    {
      this.coordinator := coordinator;
      this.value := value;
      animation := new BlendedAnimation(lerp);
    }

    /** The final value: the top animation's target, or the current value. */
    function FinalValue(): (v: T)
      reads this, animation
      ensures animation.animations != [] ==> v == animation.animations[|animation.animations| - 1].to
      ensures animation.animations == [] ==> v == value
    {
      FinalOf(animation.animations, value)
    }

    /** `is_animating`: the blend is active. */
    function IsAnimating(): (animating: bool)
      reads this, animation
      ensures animating <==> animation.animations != []
    {
      animation.IsActive()
    }

    /** `animation_count`. */
    function AnimationCount(): (n: nat)
      reads this, animation
      ensures n == |animation.animations|
    {
      animation.Count()
    }

    /** `animate`: allocates the time from the coordinator and starts a blend from the
        current value; the value itself stays. */
    method Animate(target: T, duration: nat, interpolation: Interpolation, clock: int)
      modifies coordinator, animation
      ensures coordinator.Inner() == Coordinator.Allocated(old(coordinator.Inner()), clock, duration)
      ensures animation.animations == old(animation.animations) +
        [Animation(value, target, Coordinator.CycleTime(old(coordinator.Inner()), clock), duration, interpolation)]
      ensures FinalValue() == target
    {
      var instant := coordinator.AllocateAnimationTime(clock, duration);
      animation.AnimateTo(value, instant, target, duration, interpolation);
    }

    /** `animate_if_changed`: nothing when the target is the final value already,
        otherwise `animate`. */
    method AnimateIfChanged(target: T, duration: nat, interpolation: Interpolation, clock: int)
      modifies coordinator, animation
      ensures old(FinalValue()) == target ==>
        coordinator.Inner() == old(coordinator.Inner()) && animation.animations == old(animation.animations)
      ensures old(FinalValue()) != target ==>
        coordinator.Inner() == Coordinator.Allocated(old(coordinator.Inner()), clock, duration) &&
        animation.animations == old(animation.animations) +
          [Animation(value, target, Coordinator.CycleTime(old(coordinator.Inner()), clock), duration, interpolation)]
      ensures FinalValue() == target
    {
      if FinalValue() == target {
        return;
      }
      var instant := coordinator.AllocateAnimationTime(clock, duration);
      animation.AnimateTo(value, instant, target, duration, interpolation);
    }

    /** `set_immediately`: all animations end and the value is the given one. */
    method SetImmediately(v: T)
      modifies this, animation
      ensures animation.animations == [] && value == v
    {
      var _ := animation.End();
      value := v;
    }

    /** `finish`: the value jumps to the final target and the animations end; without
        animations nothing changes. */
    method Finish()
      modifies this, animation
      ensures animation.animations == [] && value == old(FinalValue())
    {
      var last := animation.End();
      if last.Some? {
        value := last.value;
      }
    }

    /** `value()`: while animating, proceeds to the coordinator's cycle time and stores
        the blended value; returns the stored value. */
    method Value(clock: int) returns (v: T)
      modifies this, coordinator, animation
      ensures old(animation.animations) == [] ==>
        v == value == old(value) && animation.animations == [] && coordinator.Inner() == old(coordinator.Inner())
      ensures old(animation.animations) != [] ==>
        var instant := Coordinator.CycleTime(old(coordinator.Inner()), clock);
        coordinator.Inner() == Coordinator.WithCycle(old(coordinator.Inner()), clock) &&
        v == value == Current(old(animation.animations), old(value), instant, animation.lerp) &&
        animation.animations == Trimmed(old(animation.animations), instant)
    {
      if animation.IsActive() {
        var instant := coordinator.CurrentCycleTime(clock);
        var next := animation.Proceed(instant);
        if next.Some? {
          value := next.value;
        }
      }
      v := value;
    }
  }
}
