/** renderer/src/stats.rs: frame-duration statistics that ignore the first frames. Durations are
    whole nanoseconds. */
module RendererStats {
  import opened Wrappers

  /** `SKIP_FRAMES`: the samples of the first ten frames are not counted. */
  const SkipFrames: nat := 10

  /** `Stats`. Its `Default` is all zeros. */
  datatype Stats = Stats(min: nat, sum: nat, max: nat, count: nat)

  /** `Stats::default()`. */
  const NoStats := Stats(0, 0, 0, 0)

  const NanosPerSec: nat := 1_000_000_000

  /** `u32::MAX + 1`: `count as u32` keeps the count modulo this. */
  const U32Modulus: nat := 0x1_0000_0000

  /** `Duration / u32` on a duration of `total` nanoseconds: the whole seconds and the
      nanoseconds are divided separately, and the two remainders, the seconds' one in
      nanoseconds, are divided together and added to the nanoseconds. */
  function DivDuration(total: nat, rhs: nat): (r: nat)
    requires rhs > 0
  {
    var secs := Quot(total, NanosPerSec);
    var nanos := Rem(total, NanosPerSec);
    var carried := Quot(Rem(secs, rhs) * NanosPerSec + Rem(nanos, rhs), rhs);
    Quot(secs, rhs) * NanosPerSec + Quot(nanos, rhs) + carried
  }

  function Quot(a: nat, b: nat): nat
    requires b > 0
  {
    a / b
  }

  function Rem(a: nat, b: nat): nat
    requires b > 0
  {
    a % b
  }

  /** A quotient is determined by any split of the dividend into a multiple and a smaller
      remainder. */
  lemma QuotientUnique(n: nat, d: nat, q: nat, m: nat)
    requires d > 0 && n == d * q + m && m < d
    ensures n / d == q
  {
    var (q', m') := (n / d, n % d);
    assert n == d * q' + m';
    assert d * (q + 1) == d * q + d && d * (q' + 1) == d * q' + d;
    if q' > q {
      MulMonotone(d, q + 1, q');
    } else if q' < q {
      MulMonotone(d, q' + 1, q);
    }
  }

  /** Multiplying by a natural keeps the order. */
  lemma {:induction false} MulMonotone(d: nat, a: nat, b: nat)
    requires a <= b
    ensures d * a <= d * b
    decreases b - a
  {
    if a < b {
      MulMonotone(d, a, b - 1);
      assert d * b == d * (b - 1) + d;
    }
  }

  /** The three partial quotients of `DivDuration`, scaled back by `rhs`, and the last
      remainder add up to the seconds and nanoseconds they came from. */
  lemma Recombine(rhs: nat, wholeSecs: nat, extraSecs: nat, wholeNanos: nat, extraNanos: nat,
                  wholeRest: nat, extraRest: nat)
    requires extraSecs * NanosPerSec + extraNanos == rhs * wholeRest + extraRest
    ensures (rhs * wholeSecs + extraSecs) * NanosPerSec + rhs * wholeNanos + extraNanos
         == rhs * (wholeSecs * NanosPerSec + wholeNanos + wholeRest) + extraRest
  {
    assert rhs * (wholeSecs * NanosPerSec + wholeNanos + wholeRest)
        == rhs * (wholeSecs * NanosPerSec) + rhs * wholeNanos + rhs * wholeRest;
    assert rhs * (wholeSecs * NanosPerSec) == (rhs * wholeSecs) * NanosPerSec;
  }

  /** Dividing the seconds and the nanoseconds separately loses nothing: the result is the
      total divided by `rhs`, rounded down. */
  lemma {:induction false} DivDurationIsFloor(total: nat, rhs: nat)
    requires rhs > 0
    ensures DivDuration(total, rhs) == total / rhs
  {
    var secs, nanos := Quot(total, NanosPerSec), Rem(total, NanosPerSec);
    var wholeSecs, extraSecs := Quot(secs, rhs), Rem(secs, rhs);
    var wholeNanos, extraNanos := Quot(nanos, rhs), Rem(nanos, rhs);
    var rest := extraSecs * NanosPerSec + extraNanos;
    var wholeRest, extraRest := Quot(rest, rhs), Rem(rest, rhs);
    assert total == secs * NanosPerSec + nanos;
    assert secs == rhs * wholeSecs + extraSecs;
    assert nanos == rhs * wholeNanos + extraNanos;
    assert rest == rhs * wholeRest + extraRest;
    Recombine(rhs, wholeSecs, extraSecs, wholeNanos, extraNanos, wholeRest, extraRest);
    QuotientUnique(total, rhs, wholeSecs * NanosPerSec + wholeNanos + wholeRest, extraRest);
  }

  /** `Stats::mean`: `None` without samples, else the sum divided by `count as u32`, which
      panics when the count is a non-zero multiple of 2^32 and otherwise rounds down. */
  function Mean(stats: Stats): (r: Outcome<Option<nat>>)
    ensures r == Returns(None) <==> stats.count == 0
    ensures r.Panics? <==> stats.count > 0 && stats.count % U32Modulus == 0
    ensures r.Returns? && r.value.Some? ==>
      var divisor := stats.count % U32Modulus;
      r.value.value * divisor <= stats.sum < (r.value.value + 1) * divisor
  {
    if stats.count == 0 then Returns(None)
    else
      var divisor := stats.count % U32Modulus;
      if divisor == 0 then Panics
      else
        DivDurationIsFloor(stats.sum, divisor);
        Returns(Some(DivDuration(stats.sum, divisor)))
  }

  /** With fewer than 2^32 samples the mean is the sum divided by their number, rounded
      down. */
  lemma MeanOfFewSamples(stats: Stats)
    requires 0 < stats.count < U32Modulus
    ensures Mean(stats).Returns? && Mean(stats).value.Some?
    ensures Mean(stats).value.value == stats.sum / stats.count
  {
    DivDurationIsFloor(stats.sum, stats.count);
  }

  /** One call of `add_sample` on the statistics, `frame` being the frame counter after its
      increment. */
  function Step(stats: Stats, frame: nat, duration: nat): Stats
  {
    if frame <= SkipFrames then stats
    else
      Stats(if stats.count == 0 then duration else Min(stats.min, duration),
            stats.sum + duration, Max(stats.max, duration), stats.count + 1)
  }

  function Min(a: nat, b: nat): nat {
    if a <= b then a else b
  }

  function Max(a: nat, b: nat): nat {
    if a <= b then b else a
  }

  /** The statistics after the samples `samples`, one `add_sample` after another. */
  function Summary(samples: seq<nat>): Stats
  {
    if |samples| == 0 then NoStats
    else Step(Summary(samples[..|samples| - 1]), |samples|, samples[|samples| - 1])
  }

  /** The samples that count: all but those of the first `SKIP_FRAMES` frames. */
  function Counted(samples: seq<nat>): (r: seq<nat>)
    ensures |r| == if |samples| <= SkipFrames then 0 else |samples| - SkipFrames
  {
    if |samples| <= SkipFrames then [] else samples[SkipFrames..]
  }

  function SumOf(s: seq<nat>): nat
  {
    if |s| == 0 then 0 else SumOf(s[..|s| - 1]) + s[|s| - 1]
  }

  function MaxOf(s: seq<nat>): (r: nat)
    ensures forall i :: 0 <= i < |s| ==> s[i] <= r
    ensures |s| > 0 ==> r in s
  {
    if |s| == 0 then 0 else Max(MaxOf(s[..|s| - 1]), s[|s| - 1])
  }

  function MinOf(s: seq<nat>): (r: nat)
    requires |s| > 0
    ensures forall i :: 0 <= i < |s| ==> r <= s[i]
    ensures r in s
  {
    if |s| == 1 then s[0] else Min(MinOf(s[..|s| - 1]), s[|s| - 1])
  }

  /** A further sample extends the counted samples by itself once the skipped frames are
      over. */
  lemma CountedSnoc(samples: seq<nat>, d: nat)
    ensures Counted(samples + [d]) == if |samples| < SkipFrames then [] else Counted(samples) + [d]
  {
    if |samples| >= SkipFrames {
      assert (samples + [d])[SkipFrames..] == Counted(samples) + [d];
    }
  }

  /** The statistics describe the counted samples: their number, sum, maximum and minimum
      (the minimum and maximum stay zero while nothing is counted). */
  lemma {:induction false} SummaryDescribesCounted(samples: seq<nat>)
    ensures Summary(samples).count == |Counted(samples)|
    ensures Summary(samples).sum == SumOf(Counted(samples))
    ensures Summary(samples).max == MaxOf(Counted(samples))
    ensures |Counted(samples)| > 0 ==> Summary(samples).min == MinOf(Counted(samples))
    ensures |Counted(samples)| == 0 ==> Summary(samples) == NoStats
    decreases |samples|
  {
    if |samples| > 0 {
      var init := samples[..|samples| - 1];
      var d := samples[|samples| - 1];
      assert samples == init + [d];
      SummaryDescribesCounted(init);
      CountedSnoc(init, d);
      var c := Counted(samples);
      if |init| >= SkipFrames {
        assert c[..|c| - 1] == Counted(init);
      }
    }
  }

  /** The samples of the first ten frames leave the statistics at their default. */
  lemma FirstFramesIgnored(samples: seq<nat>)
    requires |samples| <= SkipFrames
    ensures Summary(samples) == NoStats
    ensures Mean(Summary(samples)) == Returns(None)
  {
    SummaryDescribesCounted(samples);
  }

  /** `MeasureSeries`: the statistics and the frame counter; `samples` is every duration
      passed so far. */
  class MeasureSeries {
    var stats: Stats
    var frame: nat
    ghost var samples: seq<nat>

    ghost predicate Valid()
      reads this
    {
      frame == |samples| && stats == Summary(samples)
    }

    /** The `Default` value. */
    constructor ()
      ensures Valid() && samples == []
    {
      stats := NoStats;
      frame := 0;
      samples := [];
    }

    /** `add_sample`: counts the frame and, past the first ten, folds the duration into the
        statistics. */
    method AddSample(duration: nat)
      requires Valid()
      modifies this
      ensures Valid() && samples == old(samples) + [duration]
    {
      frame := frame + 1;
      samples := samples + [duration];
      assert samples[..|samples| - 1] == old(samples);
      if frame <= SkipFrames {
        return;
      }
      var min := if stats.count == 0 then duration else Min(stats.min, duration);
      stats := Stats(min, stats.sum + duration, Max(stats.max, duration), stats.count + 1);
    }
  }
}
