/** `EventHistory` (input/src/event_history.rs): the recent input events, most recent
    first, each with an id and the device states at its time; records older than the
    maximum duration are collected when a new event arrives.

    Instants are integer ticks and durations `nat`s. The event and the device states are
    type parameters; an event's time is stored beside it in its record. */
module EventHistory {
  import opened Wrappers

  /** `EventRecord`: `time` is `event.time()`. */
  datatype EventRecord<E, S> = EventRecord(id: nat, time: int, event: E, states: S)

  /** `RecordPoint`: a point in time, or a record by its id. */
  datatype RecordPoint = Instant(instant: int) | EntryId(entry: nat)

  /** `received_after`: later than the instant, or a larger id than the entry. */
  predicate ReceivedAfter<E, S>(r: EventRecord<E, S>, p: RecordPoint) {
    match p
    case Instant(i) => r.time > i
    case EntryId(id) => r.id > id
  }

  /** How many records at the front were received after the point: `skip_while` skips
      them and `take_while` takes them. */
  function LeadingAfter<E, S>(records: seq<EventRecord<E, S>>, p: RecordPoint): (n: nat)
    ensures n <= |records|
    ensures forall i :: 0 <= i < n ==> ReceivedAfter(records[i], p)
    ensures n < |records| ==> !ReceivedAfter(records[n], p)
    decreases |records|
  {
    if records != [] && ReceivedAfter(records[0], p) then 1 + LeadingAfter(records[1..], p) else 0
  }

  /** `HistoryIterator::from`: skips the records received after the point. */
  function From<E, S>(records: seq<EventRecord<E, S>>, p: RecordPoint): seq<EventRecord<E, S>> {
    records[LeadingAfter(records, p)..]
  }

  /** `HistoryIterator::until`: takes the records received after the point. */
  function Until<E, S>(records: seq<EventRecord<E, S>>, p: RecordPoint): seq<EventRecord<E, S>> {
    records[..LeadingAfter(records, p)]
  }

  /** What `until` takes and what `from` leaves are the records, split in two; `until`
      takes only records received after the point and `from` starts with one that was not. */
  lemma UntilThenFrom<E, S>(records: seq<EventRecord<E, S>>, p: RecordPoint)
    ensures Until(records, p) + From(records, p) == records
    ensures forall r :: r in Until(records, p) ==> ReceivedAfter(r, p)
    ensures From(records, p) != [] ==> !ReceivedAfter(From(records, p)[0], p)
  {
    var n := LeadingAfter(records, p);
    assert records[..n] + records[n..] == records;
  }

  /** Most recent first: times never increase and ids strictly decrease towards the back. */
  ghost predicate NewestFirst<E, S>(records: seq<EventRecord<E, S>>) {
    forall i, j :: 0 <= i < j < |records| ==> records[i].time >= records[j].time && records[i].id > records[j].id
  }

  /** No id exceeds the last one handed out. */
  ghost predicate IdsAtMost<E, S>(records: seq<EventRecord<E, S>>, currentId: nat) {
    forall i :: 0 <= i < |records| ==> records[i].id <= currentId
  }

  ghost predicate Ordered<E, S>(records: seq<EventRecord<E, S>>, currentId: nat) {
    NewestFirst(records) && IdsAtMost(records, currentId)
  }

  lemma PrefixOrdered<E, S>(records: seq<EventRecord<E, S>>, n: nat, currentId: nat)
    requires Ordered(records, currentId) && n <= |records|
    ensures Ordered(records[..n], currentId)
  {
  }

  /** A record newer than the front, with the next id, keeps a history ordered. */
  lemma ConsOrdered<E, S>(r: EventRecord<E, S>, records: seq<EventRecord<E, S>>, currentId: nat)
    requires Ordered(records, currentId) && r.id == currentId + 1
    requires records != [] ==> records[0].time <= r.time
    ensures Ordered([r] + records, currentId + 1)
  {
    var s := [r] + records;
    forall i, j | 0 <= i < j < |s|
      ensures s[i].time >= s[j].time && s[i].id > s[j].id
    {
      assert s[j] == records[j - 1];
      if i == 0 {
        if j > 1 {
          assert records[0].time >= records[j - 1].time;
        }
      } else {
        assert s[i] == records[i - 1];
      }
    }
  }

  /** In an ordered history `until` an instant takes exactly the records newer than it;
      `from` leaves the rest. */
  lemma UntilInstantIsNewer<E, S>(records: seq<EventRecord<E, S>>, currentId: nat, instant: int)
    requires Ordered(records, currentId)
    ensures forall i :: 0 <= i < |records| ==> (i < |Until(records, Instant(instant))| <==> records[i].time > instant)
    ensures Until(records, Instant(instant)) + From(records, Instant(instant)) == records
  {
    var n := |Until(records, Instant(instant))|;
    UntilThenFrom(records, Instant(instant));
    forall i | n < i < |records|
      ensures records[i].time <= instant
    {
      assert records[n].time >= records[i].time;
    }
  }

  /** The records `gc` keeps: it pops records from the back while they are at or before
      `oldest`. */
  function GcKept<E, S>(records: seq<EventRecord<E, S>>, oldest: int): (kept: seq<EventRecord<E, S>>)
    ensures |kept| <= |records| && kept == records[..|kept|]
    ensures forall i :: |kept| <= i < |records| ==> records[i].time <= oldest
    ensures kept != [] ==> kept[|kept| - 1].time > oldest
    decreases |records|
  {
    if records != [] && records[|records| - 1].time <= oldest then GcKept(records[..|records| - 1], oldest)
    else records
  }

  /** In an ordered history `gc` keeps exactly the records after `oldest`. */
  lemma GcKeepsNewer<E, S>(records: seq<EventRecord<E, S>>, currentId: nat, oldest: int)
    requires Ordered(records, currentId)
    ensures forall i :: 0 <= i < |records| ==> (i < |GcKept(records, oldest)| <==> records[i].time > oldest)
  {
    var kept := GcKept(records, oldest);
    forall i | 0 <= i < |kept|
      ensures records[i].time > oldest
    {
      assert records[i].time >= records[|kept| - 1].time;
    }
  }

  /** A newest-first prefix of an ordered history, with a newer record in front and the
      next id, is ordered. */
  lemma PushKeepsOrdered<E, S>(records: seq<EventRecord<E, S>>, currentId: nat, oldest: int, r: EventRecord<E, S>)
    requires Ordered(records, currentId)
    requires r.id == currentId + 1
    requires records != [] ==> records[0].time <= r.time
    ensures Ordered([r] + GcKept(records, oldest), currentId + 1)
  {
    var kept := GcKept(records, oldest);
    PrefixOrdered(records, |kept|, currentId);
    ConsOrdered(r, kept, currentId);
  }

  class EventHistory<E, S> {
    const maxDuration: nat
    var currentId: nat
    /** Most recent first. */
    var records: seq<EventRecord<E, S>>

    ghost predicate Valid()
      reads this
    {
      Ordered(records, currentId)
    }

    /** `new`: no records; ids start after 0. */
    constructor(maxDuration: nat)
      ensures this.maxDuration == maxDuration && currentId == 0 && records == []
      ensures Valid()
    {
      this.maxDuration := maxDuration;
      currentId := 0;
      records := [];
    }

    /** `push`: panics on an event older than the current record; otherwise collects the
        records older than the maximum duration and puts a record with the next id in
        front. */
    method Push(event: E, time: int, states: S) returns (panicked: bool)
      requires Valid()
      modifies this
      ensures panicked <==> old(records) != [] && old(records)[0].time > time
      ensures panicked ==> records == old(records) && currentId == old(currentId)
      ensures !panicked ==>
        currentId == old(currentId) + 1 &&
        records == [EventRecord(currentId, time, event, states)] + GcKept(old(records), time - maxDuration)
      ensures Valid()
    {
      if records != [] && records[0].time > time {
        return true;
      }
      PushKeepsOrdered(records, currentId, time - maxDuration, EventRecord(currentId + 1, time, event, states));
      Gc(time);
      var id := NextId();
      records := [EventRecord(id, time, event, states)] + records;
      panicked := false;
    }

    /** `gc`: pops records from the back while they are at or before `now - max_duration`. */
    method Gc(now: int)
      modifies this
      ensures records == GcKept(old(records), now - maxDuration)
      ensures currentId == old(currentId)
    {
      var oldest := now - maxDuration;
      while records != [] && records[|records| - 1].time <= oldest
        invariant GcKept(records, oldest) == GcKept(old(records), oldest)
        invariant currentId == old(currentId)
        decreases |records|
      {
        records := records[..|records| - 1];
      }
    }

    /** `next_id`: one more than the last id. */
    method NextId() returns (id: nat)
      modifies this
      ensures id == currentId == old(currentId) + 1
      ensures records == old(records)
    {
      currentId := currentId + 1;
      id := currentId;
    }

    /** `current`: the most recent record. */
    function Current(): (r: Option<EventRecord<E, S>>)
      reads this
      ensures r.Some? <==> |records| > 0
      ensures r.Some? ==> r.value == records[0]
    {
      if records == [] then None else Some(records[0])
    }

    /** `previous`: the record before the most recent one. */
    function Previous(): (r: Option<EventRecord<E, S>>)
      reads this
      ensures r.Some? <==> |records| > 1
      ensures r.Some? ==> r.value == records[1]
    {
      if |records| < 2 then None else Some(records[1])
    }

    /** `historic`: all records but the most recent one. */
    function Historic(): (h: seq<EventRecord<E, S>>)
      reads this
      ensures records != [] ==> [records[0]] + h == records
      ensures records == [] ==> h == []
    {
      if records == [] then [] else records[1..]
    }

    /** `at_or_newer`: the first record not received after the point. */
    function AtOrNewer(p: RecordPoint): (r: Option<EventRecord<E, S>>)
      reads this
      ensures r.Some? ==> r.value in records && !ReceivedAfter(r.value, p)
      ensures r.Some? ==>
        exists n :: 0 <= n < |records| && r.value == records[n] && forall i :: 0 <= i < n ==> ReceivedAfter(records[i], p)
      ensures r.None? <==> forall i :: 0 <= i < |records| ==> ReceivedAfter(records[i], p)
    {
      var rest := From(records, p);
      UntilThenFrom(records, p);
      if rest == [] then None else Some(rest[0])
    }
  }
}
