/** `EventAggregator` (input/src/event_aggregator.rs): per pointing device, whether the
    cursor is inside the window, its last position and the last state of each mouse
    button, plus the keyboard modifiers; and `DeviceStates`, the snapshot of it stored
    with every recorded event.

    Device ids `D`, points `P`, buttons `B` and modifier sets `M` are type parameters;
    instants are integer ticks. */
module EventAggregator {
  import opened Wrappers

  datatype ElementState = Pressed | Released

  /** `MouseButtonState`. */
  datatype MouseButtonState<P> = MouseButtonState(element: ElementState, when: int, atPos: P)

  /** `PointingDeviceState`. */
  datatype PointingDeviceState<P, B> = PointingDeviceState(entered: bool, pos: Option<P>, buttons: map<B, MouseButtonState<P>>)

  /** `PointingDeviceState::default()`. */
  function DefaultDevice<P, B>(): (d: PointingDeviceState<P, B>)
    ensures !d.entered && d.pos.None? && d.buttons == map[]
  {
    PointingDeviceState(false, None, map[])
  }

  /** The window events the aggregator looks at; every other event is `Other`. */
  datatype WindowEvent<D, P, B, M> =
    | CursorMoved(device: D, position: P)
    | CursorEntered(device: D)
    | CursorLeft(device: D)
    | MouseInput(device: D, state: ElementState, button: B)
    | ModifiersChanged(modifiers: M)
    | Other

  /** `pointing_device_mut`: the device's state, a default one for an unknown device. */
  function DeviceOf<D, P, B>(devices: map<D, PointingDeviceState<P, B>>, id: D): PointingDeviceState<P, B> {
    if id in devices then devices[id] else DefaultDevice()
  }

  /** A button change recorded on a device, with the device's position, if it has one. */
  function ButtonChanged<P, B>(d: PointingDeviceState<P, B>, button: B, state: ElementState, now: int): PointingDeviceState<P, B> {
    if d.pos.Some? then d.(buttons := d.buttons[button := MouseButtonState(state, now, d.pos.value)]) else d
  }

  /** The aggregate state: the devices and the modifiers. */
  datatype Aggregate<D, P, B, M> = Aggregate(devices: map<D, PointingDeviceState<P, B>>, modifiers: M)

  /** Whether an event is about a pointing device. */
  predicate DeviceEvent<D, P, B, M>(e: WindowEvent<D, P, B, M>) {
    e.CursorMoved? || e.CursorEntered? || e.CursorLeft? || e.MouseInput?
  }

  /** `update`: the state after a window event at `now`; `toLogical` converts the cursor
      position. The modifiers change only on a modifiers event; a device event creates its
      device if unknown, and leaves the other devices alone. */
  function Updated<D, P, B, M>(a: Aggregate<D, P, B, M>, e: WindowEvent<D, P, B, M>, now: int, toLogical: P -> P): (r: Aggregate<D, P, B, M>)
    ensures e.ModifiersChanged? ==> r == a.(modifiers := e.modifiers)
    ensures e.Other? ==> r == a
    ensures DeviceEvent(e) ==>
      r.modifiers == a.modifiers && r.devices.Keys == a.devices.Keys + {e.device} &&
      forall id :: id in a.devices && id != e.device ==> r.devices[id] == a.devices[id]
  {
    match e
    case ModifiersChanged(m) => a.(modifiers := m)
    case Other => a
    case CursorMoved(id, position) => a.(devices := a.devices[id := DeviceOf(a.devices, id).(pos := Some(toLogical(position)))])
    case CursorEntered(id) => a.(devices := a.devices[id := DeviceOf(a.devices, id).(entered := true)])
    case CursorLeft(id) => a.(devices := a.devices[id := DeviceOf(a.devices, id).(entered := false)])
    case MouseInput(id, state, button) => a.(devices := a.devices[id := ButtonChanged(DeviceOf(a.devices, id), button, state, now)])
  }

  /** A cursor move sets the device's position, enter and leave set `entered`; nothing
      else of that device changes, and other devices do not change. */
  lemma CursorEventsSetDevice<D, P, B, M>(a: Aggregate<D, P, B, M>, e: WindowEvent<D, P, B, M>, now: int, toLogical: P -> P)
    requires e.CursorMoved? || e.CursorEntered? || e.CursorLeft?
    ensures var r := Updated(a, e, now, toLogical); var before := DeviceOf(a.devices, e.device);
      e.device in r.devices &&
      (e.CursorMoved? ==> r.devices[e.device] == before.(pos := Some(toLogical(e.position)))) &&
      (e.CursorEntered? ==> r.devices[e.device] == before.(entered := true)) &&
      (e.CursorLeft? ==> r.devices[e.device] == before.(entered := false)) &&
      (forall id :: id != e.device ==> (id in r.devices <==> id in a.devices) && (id in a.devices ==> r.devices[id] == a.devices[id]))
  {
  }

  /** A button change is recorded, with its time and the device's position, exactly when
      the device already has a position; otherwise the device's buttons stay (an unknown
      device is still created, with the default state). */
  lemma ButtonRecordedOnlyWithPosition<D, P, B, M>(a: Aggregate<D, P, B, M>, device: D, state: ElementState, button: B, now: int, toLogical: P -> P)
    ensures var r := Updated(a, MouseInput(device, state, button), now, toLogical); var before := DeviceOf(a.devices, device);
      device in r.devices &&
      (before.pos.Some? ==> r.devices[device] == before.(buttons := before.buttons[button := MouseButtonState(state, now, before.pos.value)])) &&
      (before.pos.None? ==> r.devices[device] == before) &&
      (device !in a.devices ==> r.devices[device] == DefaultDevice())
  {
  }

  /** `DeviceStates`: the devices in the aggregator's iteration order, and the modifiers. */
  datatype DeviceStates<D, P, B, M> = DeviceStates(pointingDevices: seq<(D, PointingDeviceState<P, B>)>, modifiers: M)

  /** `pointing_device`: the first entry for the device. */
  function PointingDevice<D(==), P, B>(devices: seq<(D, PointingDeviceState<P, B>)>, id: D): (r: Option<PointingDeviceState<P, B>>)
    ensures r.None? <==> forall i :: 0 <= i < |devices| ==> devices[i].0 != id
    ensures r.Some? ==> exists i :: 0 <= i < |devices| && devices[i] == (id, r.value) && forall j :: 0 <= j < i ==> devices[j].0 != id
    decreases |devices|
  {
    if devices == [] then None
    else if devices[0].0 == id then Some(devices[0].1)
    else
      var r := PointingDevice(devices[1..], id);
      assert forall i :: 1 <= i < |devices| ==> devices[i] == devices[1..][i - 1];
      r
  }

  /** `pos`: the device's position, none for an unknown device. */
  function Pos<D(==), P, B, M>(s: DeviceStates<D, P, B, M>, id: D): (p: Option<P>)
    ensures PointingDevice(s.pointingDevices, id).None? ==> p.None?
    ensures PointingDevice(s.pointingDevices, id).Some? ==> p == PointingDevice(s.pointingDevices, id).value.pos
  {
    match PointingDevice(s.pointingDevices, id)
    case None => None
    case Some(d) => d.pos
  }

  /** `is_pressed`: when and where the button was pressed, if its last recorded state is
      pressed. */
  function IsPressed<D(==), P, B, M>(s: DeviceStates<D, P, B, M>, id: D, button: B): (r: Option<(int, P)>)
    ensures r.Some? <==>
      PointingDevice(s.pointingDevices, id).Some? &&
      button in PointingDevice(s.pointingDevices, id).value.buttons &&
      PointingDevice(s.pointingDevices, id).value.buttons[button].element == Pressed
    ensures r.Some? ==>
      var b := PointingDevice(s.pointingDevices, id).value.buttons[button]; r.value == (b.when, b.atPos)
  {
    match PointingDevice(s.pointingDevices, id)
    case None => None
    case Some(d) =>
      if button in d.buttons && d.buttons[button].element == Pressed then Some((d.buttons[button].when, d.buttons[button].atPos))
      else None
  }

  /** A press `all_pressed` reports: the device, when and where the button went down. */
  datatype Press<D, P> = Press(device: D, when: int, atPos: P)

  /** Whether a snapshot entry has the button pressed, reported as `e`. */
  predicate PressedEntry<D(==), P(==), B>(entry: (D, PointingDeviceState<P, B>), button: B, e: Press<D, P>) {
    button in entry.1.buttons && entry.1.buttons[button].element == Pressed &&
    e == Press(entry.0, entry.1.buttons[button].when, entry.1.buttons[button].atPos)
  }

  /** The devices with the button pressed, in iteration order (the `flat_map`). */
  function PressedIn<D(==), P(==), B>(devices: seq<(D, PointingDeviceState<P, B>)>, button: B): seq<Press<D, P>>
    decreases |devices|
  {
    if devices == [] then []
    else
      var d := devices[0].1;
      var rest := PressedIn(devices[1..], button);
      if button in d.buttons && d.buttons[button].element == Pressed then
        [Press(devices[0].0, d.buttons[button].when, d.buttons[button].atPos)] + rest
      else rest
  }

  /** Every press in the list comes from a device entry with the button pressed. */
  lemma {:induction false} PressedInSound<D, P, B>(devices: seq<(D, PointingDeviceState<P, B>)>, button: B, e: Press<D, P>)
    requires e in PressedIn(devices, button)
    ensures exists i :: 0 <= i < |devices| && PressedEntry(devices[i], button, e)
    decreases |devices|
  {
    var d := devices[0].1;
    if button in d.buttons && d.buttons[button].element == Pressed && e == Press(devices[0].0, d.buttons[button].when, d.buttons[button].atPos) {
      assert PressedEntry(devices[0], button, e);
    } else {
      PressedInSound(devices[1..], button, e);
      var i :| 0 <= i < |devices[1..]| && PressedEntry(devices[1..][i], button, e);
      assert devices[1..][i] == devices[i + 1];
    }
  }

  /** Every device entry with the button pressed is in the list. */
  lemma {:induction false} PressedInComplete<D, P, B>(devices: seq<(D, PointingDeviceState<P, B>)>, button: B, i: nat, e: Press<D, P>)
    requires i < |devices| && PressedEntry(devices[i], button, e)
    ensures e in PressedIn(devices, button)
    decreases |devices|
  {
    if i > 0 {
      assert devices[1..][i - 1] == devices[i];
      PressedInComplete(devices[1..], button, i - 1, e);
    }
  }

  /** Most recent press first. */
  ghost predicate LatestFirst<D, P>(s: seq<Press<D, P>>) {
    forall i, j :: 0 <= i < j < |s| ==> s[i].when >= s[j].when
  }

  /** A press no older than the front of a list ordered most recent first keeps it so. */
  lemma ConsLatestFirst<D, P>(a: Press<D, P>, s: seq<Press<D, P>>)
    requires LatestFirst(s) && (s == [] || a.when >= s[0].when)
    ensures LatestFirst([a] + s)
  {
    var r := [a] + s;
    forall i, j | 0 <= i < j < |r|
      ensures r[i].when >= r[j].when
    {
      assert r[j] == s[j - 1];
      if i > 0 {
        assert r[i] == s[i - 1];
      } else if j > 1 {
        assert s[0].when >= s[j - 1].when;
      }
    }
  }

  /** Inserts a press into a list ordered most recent first, in front of the presses at
      the same instant. */
  function InsertLatestFirst<D, P>(x: Press<D, P>, s: seq<Press<D, P>>): (r: seq<Press<D, P>>)
    ensures |r| == |s| + 1 && (r[0] == x || (s != [] && r[0] == s[0]))
    decreases |s|
  {
    if s == [] || x.when >= s[0].when then [x] + s
    else [s[0]] + InsertLatestFirst(x, s[1..])
  }

  /** Inserting keeps the list ordered most recent first. */
  lemma {:induction false} InsertKeepsLatestFirst<D, P>(x: Press<D, P>, s: seq<Press<D, P>>)
    requires LatestFirst(s)
    ensures LatestFirst(InsertLatestFirst(x, s))
    decreases |s|
  {
    if s == [] || x.when >= s[0].when {
      ConsLatestFirst(x, s);
    } else {
      var rest := InsertLatestFirst(x, s[1..]);
      InsertKeepsLatestFirst(x, s[1..]);
      assert |s| > 1 ==> s[0].when >= s[1].when;
      ConsLatestFirst(s[0], rest);
    }
  }

  /** Inserting adds the press and loses nothing. */
  lemma {:induction false} InsertAddsOne<D, P>(x: Press<D, P>, s: seq<Press<D, P>>)
    ensures multiset(InsertLatestFirst(x, s)) == multiset(s) + multiset{x}
    decreases |s|
  {
    if !(s == [] || x.when >= s[0].when) {
      InsertAddsOne(x, s[1..]);
      assert s == [s[0]] + s[1..];
    }
  }

  /** The presses of a list, most recent first; presses at the same instant end up in the
      reverse of their order in the list, as a stable ascending sort followed by a
      reversal leaves them. */
  function SortLatestFirst<D, P>(s: seq<Press<D, P>>): seq<Press<D, P>>
    decreases |s|
  {
    if s == [] then [] else InsertLatestFirst(s[|s| - 1], SortLatestFirst(s[..|s| - 1]))
  }

  /** Sorting orders the presses most recent first and keeps each of them. */
  lemma {:induction false} SortIsOrderedPermutation<D, P>(s: seq<Press<D, P>>)
    ensures LatestFirst(SortLatestFirst(s))
    ensures multiset(SortLatestFirst(s)) == multiset(s)
    decreases |s|
  {
    if s != [] {
      var init := s[..|s| - 1];
      SortIsOrderedPermutation(init);
      InsertKeepsLatestFirst(s[|s| - 1], SortLatestFirst(init));
      InsertAddsOne(s[|s| - 1], SortLatestFirst(init));
      assert s == init + [s[|s| - 1]];
    }
  }

  /** `all_pressed`: the devices with the button pressed, most recent press first. */
  function AllPressed<D(==), P(==), B, M>(s: DeviceStates<D, P, B, M>, button: B): (r: seq<Press<D, P>>)
    ensures LatestFirst(r)
    ensures multiset(r) == multiset(PressedIn(s.pointingDevices, button))
  {
    SortIsOrderedPermutation(PressedIn(s.pointingDevices, button));
    SortLatestFirst(PressedIn(s.pointingDevices, button))
  }

  /** A press is reported exactly when a device entry of the snapshot has the button
      pressed. */
  lemma AllPressedIffPressed<D, P, B, M>(s: DeviceStates<D, P, B, M>, button: B, e: Press<D, P>)
    ensures e in AllPressed(s, button) <==> exists i :: 0 <= i < |s.pointingDevices| && PressedEntry(s.pointingDevices[i], button, e)
  {
    var pressed := PressedIn(s.pointingDevices, button);
    assert e in AllPressed(s, button) <==> e in multiset(AllPressed(s, button));
    assert e in pressed <==> e in multiset(pressed);
    if e in pressed {
      PressedInSound(s.pointingDevices, button, e);
    }
    if i :| 0 <= i < |s.pointingDevices| && PressedEntry(s.pointingDevices[i], button, e) {
      PressedInComplete(s.pointingDevices, button, i, e);
    }
  }

  class EventAggregator<D(==,!new), P, B(==), M> {
    var pointingDevices: map<D, PointingDeviceState<P, B>>
    var keyboardModifiers: M

    function Snapshot(): Aggregate<D, P, B, M>
      reads this
    {
      Aggregate(pointingDevices, keyboardModifiers)
    }

    constructor(modifiers: M)
      ensures pointingDevices == map[] && keyboardModifiers == modifiers
    {
      pointingDevices := map[];
      keyboardModifiers := modifiers;
    }

    /** `update`. */
    method Update(e: WindowEvent<D, P, B, M>, now: int, toLogical: P -> P)
      modifies this
      ensures Snapshot() == Updated(old(Snapshot()), e, now, toLogical)
    {
      match e {
        case CursorMoved(device, position) => CursorMovedTo(device, toLogical(position));
        case CursorEntered(device) => SetEntered(device, true);
        case CursorLeft(device) => SetEntered(device, false);
        case MouseInput(device, state, button) => MouseButtonStateChanged(now, device, button, state);
        case ModifiersChanged(m) => keyboardModifiers := m;
        case Other =>
      }
    }

    /** `cursor_entered` and `cursor_left`. */
    method SetEntered(device: D, entered: bool)
      modifies this
      ensures pointingDevices == old(pointingDevices)[device := DeviceOf(old(pointingDevices), device).(entered := entered)]
      ensures keyboardModifiers == old(keyboardModifiers)
    {
      var d := DeviceOf(pointingDevices, device);
      pointingDevices := pointingDevices[device := d.(entered := entered)];
    }

    /** `cursor_moved`. */
    method CursorMovedTo(device: D, pos: P)
      modifies this
      ensures pointingDevices == old(pointingDevices)[device := DeviceOf(old(pointingDevices), device).(pos := Some(pos))]
      ensures keyboardModifiers == old(keyboardModifiers)
    {
      var d := DeviceOf(pointingDevices, device);
      pointingDevices := pointingDevices[device := d.(pos := Some(pos))];
    }

    /** `mouse_button_state_changed`: ignored (apart from creating the device) while the
        device has no position. */
    method MouseButtonStateChanged(now: int, device: D, button: B, state: ElementState)
      modifies this
      ensures pointingDevices == old(pointingDevices)[device := ButtonChanged(DeviceOf(old(pointingDevices), device), button, state, now)]
      ensures keyboardModifiers == old(keyboardModifiers)
    {
      var d := DeviceOf(pointingDevices, device);
      if d.pos.Some? {
        d := d.(buttons := d.buttons[button := MouseButtonState(state, now, d.pos.value)]);
      }
      pointingDevices := pointingDevices[device := d];
    }

    /** `to_device_states`; `order` is the map's iteration order, each device once. */
    function ToDeviceStates(order: seq<D>): (s: DeviceStates<D, P, B, M>)
      reads this
      requires forall id :: id in order <==> id in pointingDevices
      ensures s.modifiers == keyboardModifiers && |s.pointingDevices| == |order|
      ensures forall i :: 0 <= i < |order| ==> s.pointingDevices[i] == (order[i], pointingDevices[order[i]])
    {
      DeviceStates(seq(|order|, i requires 0 <= i < |order| && order[i] in pointingDevices reads this => (order[i], pointingDevices[order[i]])), keyboardModifiers)
    }
  }
}
