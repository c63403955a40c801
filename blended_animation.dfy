/** `BlendedAnimation` (animation/src/blended_animation.rs): a stack of animations of one
    value, each starting from the value it found, blended bottom to top so that a new
    animation takes over gradually from the ones before it.

    Instants are integer ticks and durations `nat`s; `t` values are reals. The easing
    curves and `Interpolatable::interpolate` are the function parameters of an
    `Interpolator`. */
module BlendedAnimations {
  import opened Wrappers

  /** The easing curve an animation applies to `t`; the curves are not part of this model. */
  datatype Interpolation = Interpolation(curve: nat)

  /** `Interpolatable::interpolate` of the value type, and `Ease::interpolate`. */
  datatype Interpolator<!T> = Interpolator(interpolate: (T, T, real) -> T, ease: (real, Interpolation) -> real)

  /** `Animation`: from `from` at `startTime` to `to` after `duration`. */
  datatype Animation<T> = Animation(from: T, to: T, startTime: int, duration: nat, interpolation: Interpolation)

  /** `t_at`: how far the animation is at `instant`, 0 before the start, 1 at or after the
      end (at once for a zero duration), and linear in time in between. */
  function TAt<T>(a: Animation<T>, instant: int): (t: real)
    ensures 0.0 <= t <= 1.0
    ensures instant < a.startTime ==> t == 0.0
    ensures t == 1.0 <==> a.startTime + a.duration <= instant
    ensures a.startTime <= instant < a.startTime + a.duration ==> t * a.duration as real == (instant - a.startTime) as real
  {
    if instant < a.startTime then 0.0
    else if instant >= a.startTime + a.duration then 1.0
    else
      var t := (instant - a.startTime) as real / a.duration as real;
      assert t * a.duration as real == (instant - a.startTime) as real;
      t
  }

  /** `value_at_t`: the start value before 0, exactly the target from 1 on, and the eased
      interpolation in between. */
  function ValueAtT<T>(a: Animation<T>, t: real, lerp: Interpolator<T>): (v: T)
    ensures t < 0.0 ==> v == a.from
    ensures t >= 1.0 ==> v == a.to
    ensures 0.0 <= t < 1.0 ==> v == lerp.interpolate(a.from, a.to, lerp.ease(t, a.interpolation))
  {
    if t < 0.0 then a.from
    else if t >= 1.0 then a.to
    else lerp.interpolate(a.from, a.to, lerp.ease(t, a.interpolation))
  }

  /** The blend weight of animation `i` at `instant`: 1 for the bottom one, its `t` (which
      never exceeds 1) above it. */
  function Weight<T>(anims: seq<Animation<T>>, i: nat, instant: int): (w: real)
    requires i < |anims|
    ensures 0.0 <= w <= 1.0
    ensures i == 0 ==> w == 1.0
  {
    if i == 0 then 1.0
    else
      var t := TAt(anims[i], instant);
      if t < 1.0 then t else 1.0
  }

  /** The value blended from the first `k` animations: starting at the bottom's start
      value, each animation's value is interpolated in with its weight. */
  function Blended<T>(anims: seq<Animation<T>>, instant: int, lerp: Interpolator<T>, k: nat): T
    requires 0 < |anims| && k <= |anims|
  {
    if k == 0 then anims[0].from
    else
      lerp.interpolate(Blended(anims, instant, lerp, k - 1),
                       ValueAtT(anims[k - 1], TAt(anims[k - 1], instant), lerp),
                       Weight(anims, k - 1, instant))
  }

  /** The last of the first `k` animations whose weight reached 1 (0 when `k` is 0): the
      animations below it no longer contribute. */
  function FirstContributing<T>(anims: seq<Animation<T>>, instant: int, k: nat): (f: nat)
    requires k <= |anims|
    ensures k == 0 ==> f == 0
    ensures k > 0 ==> f < k && Weight(anims, f, instant) >= 1.0
    ensures forall j :: f < j < k ==> Weight(anims, j, instant) < 1.0
  {
    if k == 0 then 0
    else if Weight(anims, k - 1, instant) >= 1.0 then k - 1
    else FirstContributing(anims, instant, k - 1)
  }

  /** The stack `proceed` leaves: the contributing animations, or nothing once a single
      one remains that has run to its end. */
  function Trimmed<T>(anims: seq<Animation<T>>, instant: int): seq<Animation<T>>
    requires 0 < |anims|
  {
    var rest := anims[FirstContributing(anims, instant, |anims|)..];
    if |rest| == 1 && TAt(rest[0], instant) >= 1.0 then [] else rest
  }

  /** `proceed` keeps a suffix of the stack that still holds the top animation, unless it
      clears the stack; it clears it exactly when the top animation alone contributes and
      has run to its end. */
  lemma TrimmedKeepsTop<T>(anims: seq<Animation<T>>, instant: int)
    requires 0 < |anims|
    ensures var r := Trimmed(anims, instant);
      (r == [] <==> FirstContributing(anims, instant, |anims|) == |anims| - 1 && TAt(anims[|anims| - 1], instant) >= 1.0) &&
      (r != [] ==> r == anims[|anims| - |r|..] && r[|r| - 1] == anims[|anims| - 1])
  {
    var f := FirstContributing(anims, instant, |anims|);
    assert |anims[f..]| == |anims| - f;
  }

  /** The animations `proceed` drops do not change the blended value, given that blending
      with weight 1 yields the blended-in value. */
  lemma {:induction false} DroppedDoNotContribute<T>(anims: seq<Animation<T>>, instant: int, lerp: Interpolator<T>, f: nat, k: nat)
    requires forall a, b :: lerp.interpolate(a, b, 1.0) == b
    requires f < k <= |anims| && Weight(anims, f, instant) >= 1.0
    ensures Blended(anims, instant, lerp, k) == Blended(anims[f..], instant, lerp, k - f)
    decreases k
  {
    var rest := anims[f..];
    if k == f + 1 {
      assert Weight(rest, 0, instant) == 1.0 == Weight(anims, f, instant);
    } else {
      DroppedDoNotContribute(anims, instant, lerp, f, k - 1);
      assert rest[k - 1 - f] == anims[k - 1];
      assert Weight(rest, k - 1 - f, instant) == Weight(anims, k - 1, instant);
    }
  }

  /** The blended value over the whole stack is the blended value over what `proceed`
      keeps of it (while it keeps anything). */
  lemma ProceedKeepsValue<T>(anims: seq<Animation<T>>, instant: int, lerp: Interpolator<T>)
    requires forall a, b :: lerp.interpolate(a, b, 1.0) == b
    requires 0 < |anims|
    ensures var f := FirstContributing(anims, instant, |anims|);
      Blended(anims, instant, lerp, |anims|) == Blended(anims[f..], instant, lerp, |anims| - f)
  {
    DroppedDoNotContribute(anims, instant, lerp, FirstContributing(anims, instant, |anims|), |anims|);
  }

  class BlendedAnimation<T> {
    var animations: seq<Animation<T>>
    const lerp: Interpolator<T>

    /** `Default`: no animations. */
    constructor(lerp: Interpolator<T>)
      ensures animations == [] && this.lerp == lerp
    {
      animations := [];
      this.lerp := lerp;
    }

    /** `animate_to`: a new animation from the current value on top of the stack. */
    method AnimateTo(currentValue: T, currentTime: int, to: T, duration: nat, interpolation: Interpolation)
      modifies this
      ensures animations == old(animations) + [Animation(currentValue, to, currentTime, duration, interpolation)]
    {
      animations := animations + [Animation(currentValue, to, currentTime, duration, interpolation)];
    }

    /** `is_active`: any animation on the stack. */
    function IsActive(): (active: bool)
      reads this
      ensures active <==> |animations| > 0
    {
      animations != []
    }

    /** `final_value`: the top animation's target, if there is one. */
    function FinalValue(): (v: Option<T>)
      reads this
      ensures v.Some? <==> IsActive()
      ensures v.Some? ==> v.value == animations[|animations| - 1].to
    {
      if animations == [] then None else Some(animations[|animations| - 1].to)
    }

    /** `proceed`: the blended value at `instant`, dropping the animations that no longer
        contribute; `None` on an empty stack. */
    method Proceed(instant: int) returns (v: Option<T>)
      modifies this
      ensures old(animations) == [] ==> v.None? && animations == []
      ensures old(animations) != [] ==>
        v == Some(Blended(old(animations), instant, lerp, |old(animations)|)) &&
        animations == Trimmed(old(animations), instant)
    {
      if animations == [] {
        return None;
      }
      var blended := animations[0].from;
      var first := 0;
      var index := 0;
      while index < |animations|
        invariant 0 <= index <= |animations|
        invariant blended == Blended(animations, instant, lerp, index)
        invariant first == FirstContributing(animations, instant, index)
      {
        var t := TAt(animations[index], instant);
        var value := ValueAtT(animations[index], t, lerp);
        var blendWeight := if index == 0 then 1.0 else if t < 1.0 then t else 1.0;
        blended := lerp.interpolate(blended, value, blendWeight);
        if blendWeight >= 1.0 {
          first := index;
        }
        index := index + 1;
      }
      animations := animations[first..];
      if |animations| == 1 && TAt(animations[0], instant) >= 1.0 {
        animations := [];
      }
      v := Some(blended);
    }

    /** `end`: the top animation's target, with the stack emptied. */
    method End() returns (v: Option<T>)
      modifies this
      ensures v == old(FinalValue())
      ensures animations == []
    {
      if animations == [] {
        return None;
      }
      v := Some(animations[|animations| - 1].to);
      animations := [];
    }

    /** `count`. */
    function Count(): (n: nat)
      reads this
      ensures n == |animations|
    {
      |animations|
    }
  }
}
