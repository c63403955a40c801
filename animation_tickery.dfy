/** `Tickery` (animation/src/tickery.rs): the tick of the frame being prepared, and
    whether anything used it since the frame was prepared. */
module Tickery {
  /** The operations on a tickery, to state what a run of them leaves behind. */
  datatype Op = PrepareFrame(instant: int) | CurrentTick | AnyUsers

  datatype State = State(tick: int, anyUsers: bool)

  /** The state after one operation. */
  function Step(s: State, op: Op): State {
    match op
    case PrepareFrame(instant) => State(instant, false)
    case CurrentTick => s.(anyUsers := true)
    case AnyUsers => s
  }

  /** The state after a run of operations, first to last. */
  function Run(s: State, ops: seq<Op>): State
    decreases |ops|
  {
    if ops == [] then s else Run(Step(s, ops[0]), ops[1..])
  }

  /** The index of the last `PrepareFrame` in `ops`, or -1. */
  function LastPrepare(ops: seq<Op>): (k: int)
    ensures -1 <= k < |ops|
    ensures k >= 0 ==> ops[k].PrepareFrame?
    ensures forall j :: k < j < |ops| ==> !ops[j].PrepareFrame?
    decreases |ops|
  {
    if ops == [] then -1
    else if ops[|ops| - 1].PrepareFrame? then |ops| - 1
    else LastPrepare(ops[..|ops| - 1])
  }

  lemma {:induction false} RunAppend(s: State, ops: seq<Op>, op: Op)
    ensures Run(s, ops + [op]) == Step(Run(s, ops), op)
    decreases |ops|
  {
    if ops != [] {
      assert (ops + [op])[1..] == ops[1..] + [op];
      RunAppend(Step(s, ops[0]), ops[1..], op);
    }
  }

  /** After any run of operations the tick is the one of the last prepared frame (or the
      initial one), and the tick counts as used exactly when `current_tick` was called
      since (or, with no frame prepared, when it was already used or called at all). */
  lemma {:induction false} RunTracksUse(s: State, ops: seq<Op>)
    ensures var k := LastPrepare(ops);
      Run(s, ops).tick == (if k >= 0 then ops[k].instant else s.tick) &&
      (Run(s, ops).anyUsers <==>
        (k < 0 && s.anyUsers) || exists j :: k < j < |ops| && ops[j].CurrentTick?)
    decreases |ops|
  {
    if ops != [] {
      var init := ops[..|ops| - 1];
      var last := ops[|ops| - 1];
      assert init + [last] == ops;
      RunAppend(s, init, last);
      RunTracksUse(s, init);
      var k := LastPrepare(init);
      if !last.PrepareFrame? {
        assert LastPrepare(ops) == k;
        if last.CurrentTick? {
          assert ops[|ops| - 1].CurrentTick?;
        } else {
          assert forall j :: k < j < |ops| && ops[j].CurrentTick? ==> j < |init| && init[j].CurrentTick?;
        }
      }
    }
  }

  class Tickery {
    var tick: int
    var anyUsers: bool

    function Snapshot(): State
      reads this
    {
      State(tick, anyUsers)
    }

    /** `new`: the given tick, not used yet. */
    constructor(now: int)
      ensures tick == now && !anyUsers
    {
      tick, anyUsers := now, false;
    }

    /** Sets the tick and forgets its users. */
    method PrepareFrame(instant: int)
      modifies this
      ensures tick == instant && !anyUsers
      ensures Snapshot() == Step(old(Snapshot()), Op.PrepareFrame(instant))
    {
      tick := instant;
      anyUsers := false;
    }

    /** Marks the tick used and returns it. */
    method CurrentTick() returns (t: int)
      modifies this
      ensures t == tick == old(tick) && anyUsers
      ensures Snapshot() == Step(old(Snapshot()), Op.CurrentTick)
    {
      anyUsers := true;
      t := tick;
    }

    /** Whether the tick was used since the frame was prepared. */
    function AnyUsers(): (used: bool)
      reads this
      ensures used <==> anyUsers
    {
      anyUsers
    }
  }
}
