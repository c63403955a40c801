/** `Timeline` of the animation crate (animation/src/timeline.rs): a value whose
    animations are queued and only start blending at the next tick. */
module AnimationTimeline {
  import opened BlendedAnimations

  /** `PendingAnimation`: a queued target. */
  datatype PendingAnimation<T> = PendingAnimation(to: T, duration: nat, interpolation: Interpolation)

  /** The animations the queued ones become at the tick `instant`, all starting from the
      value current at the tick, in queue order. */
  function Started<T>(pending: seq<PendingAnimation<T>>, value: T, instant: int): (started: seq<Animation<T>>)
    ensures |started| == |pending|
    ensures forall i :: 0 <= i < |pending| ==>
      started[i] == Animation(value, pending[i].to, instant, pending[i].duration, pending[i].interpolation)
  {
    seq(|pending|, i requires 0 <= i < |pending| => Animation(value, pending[i].to, instant, pending[i].duration, pending[i].interpolation))
  }

  /** The stack `tick` blends over: the running animations with the started ones on top. */
  function TickStack<T>(running: seq<Animation<T>>, pending: seq<PendingAnimation<T>>, value: T, instant: int): seq<Animation<T>> {
    running + Started(pending, value, instant)
  }

  /** With something queued, the tick's final target is the last queued target. */
  lemma TickTargetsLastPending<T>(running: seq<Animation<T>>, pending: seq<PendingAnimation<T>>, value: T, instant: int)
    requires pending != []
    ensures var stack := TickStack(running, pending, value, instant);
      stack != [] && stack[|stack| - 1].to == pending[|pending| - 1].to
  {
  }

  class TimelineInner<T> {
    var value: T
    var pending: seq<PendingAnimation<T>>
    const animations: BlendedAnimation<T>

    /** `new`: the value, nothing queued, no animations. */
    constructor(value: T, lerp: Interpolator<T>)
      ensures this.value == value && pending == []
      ensures fresh(animations) && animations.animations == [] && animations.lerp == lerp
    {
      this.value := value;
      pending := [];
      animations := new BlendedAnimation(lerp);
    }

    /** `Timeline::animate_to`: queues the animation; the value and the running animations
        stay. */
    method AnimateTo(target: T, duration: nat, interpolation: Interpolation)
      modifies this
      ensures pending == old(pending) + [PendingAnimation(target, duration, interpolation)]
      ensures value == old(value)
    {
      pending := pending + [PendingAnimation(target, duration, interpolation)];
    }

    /** `tick`: starts every queued animation, in order, from the current value; then
        proceeds the blend to `instant` and takes its value if it has one. */
    method Tick(instant: int)
      modifies this, animations
      ensures pending == []
      ensures var stack := TickStack(old(animations.animations), old(pending), old(value), instant);
        if stack == [] then
          value == old(value) && animations.animations == []
        else
          value == Blended(stack, instant, animations.lerp, |stack|) && animations.animations == Trimmed(stack, instant)
    {
      var i := 0;
      while i < |pending|
        invariant 0 <= i <= |pending| && value == old(value) && pending == old(pending)
        invariant animations.animations == old(animations.animations) + Started(pending[..i], value, instant)
      {
        var p := pending[i];
        animations.AnimateTo(value, instant, p.to, p.duration, p.interpolation);
        assert Started(pending[..i + 1], value, instant) == Started(pending[..i], value, instant) + [Animation(value, p.to, instant, p.duration, p.interpolation)];
        i := i + 1;
      }
      assert pending[..i] == pending;
      pending := [];
      var next := animations.Proceed(instant);
      if next.Some? {
        value := next.value;
      }
    }
  }
}
