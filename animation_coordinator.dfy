/** The animation coordinator (animation/src/coordinator.rs): the time stamp of the
    current update cycle, handed to every animated value, and the ending time of the
    longest running animation, which decides whether animations are still active.

    Instants are integer ticks (nanoseconds) and durations are `nat`s; `Instant::now()`
    is the parameter `now` of the operation that reads the clock. */
module Coordinator {
  import opened Wrappers

  /** An implicit cycle was opened by reading the time; an apply-animations cycle is one in
      which the animated values are applied. */
  datatype CycleMode = Implicit | ApplyAnimations

  datatype AnimationCycle = AnimationCycle(time: int, mode: CycleMode)

  /** `Inner`. */
  datatype State = State(animating: bool, cycle: Option<AnimationCycle>, endingTime: int)

  function Max(a: int, b: int): (m: int)
    ensures m >= a && m >= b && (m == a || m == b)
  {
    if a >= b then a else b
  }

  /** `AnimationCoordinator::new`: not animating, no cycle, the ending time is now. */
  function Initial(now: int): (s: State)
    ensures !s.animating && s.cycle.None? && s.endingTime == now
  {
    State(false, None, now)
  }

  /** `Inner::current_cycle`: the open cycle, or an implicit one opened at `now`. */
  function WithCycle(s: State, now: int): (r: State)
    ensures r.cycle.Some? && r.animating == s.animating && r.endingTime == s.endingTime
    ensures s.cycle.Some? ==> r == s
    ensures s.cycle.None? ==> r.cycle == Some(AnimationCycle(now, Implicit))
  {
    if s.cycle.Some? then s else s.(cycle := Some(AnimationCycle(now, Implicit)))
  }

  /** The time `current_cycle_time` returns. */
  function CycleTime(s: State, now: int): int {
    WithCycle(s, now).cycle.value.time
  }

  /** `upgrade_to_apply_animations_cycle`: the (possibly just opened) cycle becomes an
      apply-animations cycle. */
  function Upgraded(s: State, now: int): (r: State)
    ensures r.cycle.Some? && r.cycle.value.mode == ApplyAnimations
    ensures r.cycle.value.time == CycleTime(s, now)
    ensures r.animating == s.animating && r.endingTime == s.endingTime
  {
    var c := WithCycle(s, now);
    c.(cycle := Some(c.cycle.value.(mode := ApplyAnimations)))
  }

  /** `allocate_animation_time`: the ending time grows to cover the new animation, which
      starts at the cycle time, and animations are active. */
  function Allocated(s: State, now: int, duration: nat): (r: State)
    ensures r.animating
    ensures r.endingTime == Max(s.endingTime, CycleTime(s, now) + duration)
    ensures r.cycle == WithCycle(s, now).cycle
  {
    var c := WithCycle(s, now);
    c.(endingTime := Max(c.endingTime, c.cycle.value.time + duration), animating := true)
  }

  /** `end_cycle`: the cycle is always closed; animations stop only at the end of an
      apply-animations cycle that reached the ending time. */
  function Ended(s: State): (r: State)
    ensures r.cycle.None? && r.endingTime == s.endingTime
    ensures r.animating <==>
      s.animating && !(s.cycle.Some? && s.cycle.value.mode == ApplyAnimations && s.cycle.value.time >= s.endingTime)
  {
    match s.cycle
    case None => s
    case Some(c) =>
      if c.mode == ApplyAnimations && c.time >= s.endingTime then s.(cycle := None, animating := false)
      else s.(cycle := None)
  }

  /** Reading the cycle time, upgrading the cycle and allocating animation time keep the
      cycle time: it is fixed from the first read until the cycle ends. */
  lemma CycleTimeStable(s: State, now: int, later: int, duration: nat)
    ensures CycleTime(WithCycle(s, now), later) == CycleTime(s, now)
    ensures CycleTime(Upgraded(s, now), later) == CycleTime(s, now)
    ensures CycleTime(Allocated(s, now, duration), later) == CycleTime(s, now)
  {
  }

  /** Once a cycle is open, the clock is not read again until it ends. */
  lemma OpenCycleIgnoresClock(s: State, now: int, other: int)
    requires s.cycle.Some?
    ensures CycleTime(s, now) == CycleTime(s, other)
  {
  }

  /** The ending time never decreases. */
  lemma EndingTimeMonotone(s: State, now: int, duration: nat)
    ensures WithCycle(s, now).endingTime >= s.endingTime
    ensures Upgraded(s, now).endingTime >= s.endingTime
    ensures Allocated(s, now, duration).endingTime >= s.endingTime
    ensures Ended(s).endingTime >= s.endingTime
  {
  }

  /** An animation of positive duration allocated in a cycle keeps animations active at
      the end of that cycle, whatever the cycle's mode. */
  lemma AllocatedStaysAnimating(s: State, now: int, later: int, duration: nat)
    requires duration > 0
    ensures Ended(Allocated(s, now, duration)).animating
    ensures Ended(Upgraded(Allocated(s, now, duration), later)).animating
  {
  }

  /** An apply-animations cycle at or after the ending time ends the animations; no other
      end of a cycle does. */
  lemma UpgradedCycleEndsAnimations(s: State, now: int)
    ensures !Ended(Upgraded(s, now)).animating <==> !s.animating || CycleTime(s, now) >= s.endingTime
  {
  }

  /** An implicit cycle never ends the animations. */
  lemma ImplicitCycleKeepsAnimating(s: State, now: int)
    requires s.cycle.None? || s.cycle.value.mode == Implicit
    ensures Ended(WithCycle(s, now)).animating == s.animating
  {
  }

  /** `AnimationCoordinator`, shared by all animated values of one scene. */
  class AnimationCoordinator {
    var animating: bool
    var cycle: Option<AnimationCycle>
    var endingTime: int

    function Inner(): State
      reads this
    {
      State(animating, cycle, endingTime)
    }

    /** `new`, with `now` for `Instant::now()`. */
    constructor(now: int)
      ensures Inner() == Initial(now)
    {
      animating, cycle, endingTime := false, None, now;
    }

    method UpgradeToApplyAnimationsCycle(now: int)
      modifies this
      ensures Inner() == Upgraded(old(Inner()), now)
    {
      if cycle.None? {
        cycle := Some(AnimationCycle(now, Implicit));
      }
      cycle := Some(cycle.value.(mode := ApplyAnimations));
    }

    /** `end_cycle`: returns whether animations are still active. */
    method EndCycle() returns (active: bool)
      modifies this
      ensures Inner() == Ended(old(Inner()))
      ensures active == animating
    {
      if cycle.Some? {
        var c := cycle.value;
        cycle := None;
        if c.mode == ApplyAnimations && c.time >= endingTime {
          animating := false;
        }
      }
      active := animating;
    }

    method CurrentCycleTime(now: int) returns (time: int)
      modifies this
      ensures Inner() == WithCycle(old(Inner()), now)
      ensures time == CycleTime(old(Inner()), now)
    {
      if cycle.None? {
        cycle := Some(AnimationCycle(now, Implicit));
      }
      time := cycle.value.time;
    }

    /** `allocate_animation_time`: returns the animation's starting time. */
    method AllocateAnimationTime(now: int, duration: nat) returns (start: int)
      modifies this
      ensures Inner() == Allocated(old(Inner()), now, duration)
      ensures start == CycleTime(old(Inner()), now)
    {
      if cycle.None? {
        cycle := Some(AnimationCycle(now, Implicit));
      }
      start := cycle.value.time;
      endingTime := Max(endingTime, start + duration);
      animating := true;
    }
  }
}
