/** `TimeScale` (animation/src/time_scale.rs): the duration between the coordinator's
    update cycles, measured from one cycle time to the next. Durations are nanoseconds. */
module TimeScale {
  import Coordinator

  /** What a time scale remembers: the last cycle time it saw and the duration up to it. */
  datatype Scale = Scale(now: int, durationSince: nat)

  /** `duration_passed` at cycle time `current`: a later cycle time becomes the new
      reference and the gap to it the new duration; an earlier or equal one changes
      nothing. */
  function Passed(s: Scale, current: int): (r: Scale)
    ensures current > s.now ==> r.now == current && r.now - s.now == r.durationSince
    ensures current <= s.now ==> r == s
  {
    if current > s.now then Scale(current, current - s.now) else s
  }

  /** Within one cycle, asking again returns the same duration. */
  lemma PassedIdempotent(s: Scale, current: int)
    ensures Passed(Passed(s, current), current) == Passed(s, current)
  {
  }

  /** The reference time only moves forward. */
  lemma PassedMonotone(s: Scale, current: int)
    ensures Passed(s, current).now >= s.now && Passed(s, current).now >= current
  {
  }

  /** Nanoseconds in a second, for `as_secs_f64`. */
  const NanosPerSecond: nat := 1_000_000_000

  /** `Duration::as_secs_f64`, without floating-point rounding. */
  function Seconds(d: nat): (secs: real)
    ensures secs >= 0.0
    ensures secs * NanosPerSecond as real == d as real
  {
    d as real / NanosPerSecond as real
  }

  class TimeScale {
    const coordinator: Coordinator.AnimationCoordinator
    var now: int
    var durationSince: nat

    /** `new`: the reference is the coordinator's current cycle time (opening an implicit
        cycle at `clock` if none is open), and no time has passed. */
    constructor(coordinator: Coordinator.AnimationCoordinator, clock: int)
      modifies coordinator
      ensures this.coordinator == coordinator
      ensures coordinator.Inner() == Coordinator.WithCycle(old(coordinator.Inner()), clock)
      ensures now == Coordinator.CycleTime(old(coordinator.Inner()), clock) && durationSince == 0
    {
      this.coordinator := coordinator;
      var current := coordinator.CurrentCycleTime(clock);
      now, durationSince := current, 0;
    }

    /** `duration_passed`: the duration since the previous cycle this time scale saw;
        zero in the cycle it was created in. */
    method DurationPassed(clock: int) returns (d: nat)
      modifies this, coordinator
      ensures coordinator.Inner() == Coordinator.WithCycle(old(coordinator.Inner()), clock)
      ensures Scale(now, durationSince) ==
        Passed(old(Scale(now, durationSince)), Coordinator.CycleTime(old(coordinator.Inner()), clock))
      ensures d == durationSince
    {
      var current := coordinator.CurrentCycleTime(clock);
      if current > now {
        durationSince := current - now;
        now := current;
      }
      d := durationSince;
    }

    /** `scale_seconds`: `duration_passed` in seconds. */
    method ScaleSeconds(clock: int) returns (secs: real)
      modifies this, coordinator
      ensures coordinator.Inner() == Coordinator.WithCycle(old(coordinator.Inner()), clock)
      ensures Scale(now, durationSince) ==
        Passed(old(Scale(now, durationSince)), Coordinator.CycleTime(old(coordinator.Inner()), clock))
      ensures secs == Seconds(durationSince)
    {
      var d := DurationPassed(clock);
      secs := Seconds(d);
    }
  }
}
