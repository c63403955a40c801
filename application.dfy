/** The example applications' camera control (examples/shared/src/application.rs): window
    events move and rotate the page with the mouse, zoom it with the wheel and ask for the
    application to exit.

    Window events are an abstract enum with the cases `update` tells apart. Positions and
    wheel deltas arrive already rounded to integers; the rounding of floating-point
    values is not part of this model. Device ids are naturals. */
module Application {
  import opened Wrappers

  /** `VectorI`. */
  datatype VectorI = VectorI(x: int, y: int)

  function Add(a: VectorI, b: VectorI): VectorI {
    VectorI(a.x + b.x, a.y + b.y)
  }

  function Sub(a: VectorI, b: VectorI): VectorI {
    VectorI(a.x - b.x, a.y - b.y)
  }

  /** `ActiveGesture`: where the gesture started and the translation or rotation then. */
  datatype Gesture =
    | Movement(origin: VectorI, translationOrigin: VectorI)
    | Rotation(origin: VectorI, rotationOrigin: VectorI)

  /** The modifier keys' state. */
  datatype Modifiers = Modifiers(shift: bool, control: bool, alt: bool, superKey: bool)

  datatype MouseButton = Left | Middle | Right | OtherButton

  /** The window events `update` tells apart; `pixelZ` is the pixel delta already scaled by
      a quarter and rounded, `lines` the line delta already rounded. */
  datatype WindowEvent =
    | CloseRequested
    | KeyboardInput(pressed: bool, escape: bool)
    | CursorMoved(device: nat, position: VectorI)
    | PixelWheel(moved: bool, pixelZ: int)
    | LineWheel(moved: bool, lines: int)
    | MouseInput(device: nat, pressed: bool, button: MouseButton)
    | ModifiersChanged(modifiers: Modifiers)
    | OtherEvent

  datatype UpdateResponse = Continue | Exit

  /** `MOUSE_WHEEL_LINE_DELTA_TO_Z_PIXELS`. */
  const LineDeltaToZPixels: int := 16

  datatype State = State(
    gesture: Option<Gesture>,
    positions: map<nat, VectorI>,
    modifiers: Modifiers,
    translation: VectorI,
    translationZ: int,
    rotation: VectorI)

  datatype Updated = Updated(state: State, response: UpdateResponse)

  /** `Application::default`. */
  function Default(): (s: State)
    ensures s.gesture.None? && s.positions == map[]
    ensures s.translation == s.rotation == VectorI(0, 0) && s.translationZ == 0
  {
    State(None, map[], Modifiers(false, false, false, false), VectorI(0, 0), 0, VectorI(0, 0))
  }

  /** The gesture a press starts at `origin`. */
  function RotationFrom(s: State, origin: VectorI): Gesture {
    Rotation(origin, s.rotation)
  }

  function MovementFrom(s: State, origin: VectorI): Gesture {
    Movement(origin, s.translation)
  }

  /** What `update` does with an event: the new state and the response, or a panic when the
      middle button is pressed on a device whose position is unknown. */
  function Next(s: State, e: WindowEvent): Outcome<Updated> {
    match e
    case CloseRequested => Returns(Updated(s, Exit))
    case KeyboardInput(pressed, escape) =>
      Returns(Updated(s, if pressed && escape then Exit else Continue))
    case CursorMoved(d, current) =>
      var s1 := s.(positions := s.positions[d := current]);
      var s2 := match s.gesture
        case Some(Movement(origin, translationOrigin)) => s1.(translation := Add(translationOrigin, Sub(current, origin)))
        case Some(Rotation(origin, rotationOrigin)) => s1.(rotation := Add(rotationOrigin, Sub(current, origin)))
        case None => s1;
      Returns(Updated(s2, Continue))
    case PixelWheel(moved, z) =>
      Returns(Updated(if moved then s.(translationZ := s.translationZ + z) else s, Continue))
    case LineWheel(moved, lines) =>
      Returns(Updated(if moved then s.(translationZ := s.translationZ + lines * LineDeltaToZPixels) else s, Continue))
    case MouseInput(d, pressed, Left) =>
      if d !in s.positions then Returns(Updated(s, Continue))
      else if !pressed then Returns(Updated(s.(gesture := None), Continue))
      else if s.modifiers.superKey then Returns(Updated(s.(gesture := Some(RotationFrom(s, s.positions[d]))), Continue))
      else Returns(Updated(s.(gesture := Some(MovementFrom(s, s.positions[d]))), Continue))
    case MouseInput(d, pressed, Middle) =>
      if !pressed then Returns(Updated(s.(gesture := None), Continue))
      else if d !in s.positions then Panics
      else Returns(Updated(s.(gesture := Some(RotationFrom(s, s.positions[d]))), Continue))
    case MouseInput(_, _, Right) => Returns(Updated(s.(rotation := VectorI(0, 0)), Continue))
    case MouseInput(_, _, OtherButton) => Returns(Updated(s, Continue))
    case ModifiersChanged(m) => Returns(Updated(s.(modifiers := m), Continue))
    case OtherEvent => Returns(Updated(s, Continue))
  }

  /** The application exits exactly on a close request or a pressed Escape, and exiting
      changes nothing; only the middle button can panic. */
  lemma ExitExactly(s: State, e: WindowEvent)
    ensures Next(s, e).Panics? ==> e.MouseInput? && e.button == Middle && e.pressed && e.device !in s.positions
    ensures Next(s, e).Returns? ==>
      (Next(s, e).value.response == Exit <==> e == CloseRequested || (e.KeyboardInput? && e.pressed && e.escape))
    ensures Next(s, e).Returns? && Next(s, e).value.response == Exit ==> Next(s, e).value.state == s
  {
  }

  /** A cursor move records the device's position and, during a movement gesture, sets the
      translation to where it started plus the distance moved since; a rotation gesture
      does the same to the rotation; nothing else changes. */
  lemma CursorMoveFollows(s: State, d: nat, current: VectorI)
    ensures Next(s, CursorMoved(d, current)).Returns?
    ensures var r := Next(s, CursorMoved(d, current)).value.state;
      r.positions == s.positions[d := current] && r.gesture == s.gesture &&
      r.modifiers == s.modifiers && r.translationZ == s.translationZ &&
      (s.gesture.Some? && s.gesture.value.Movement? ==>
        r.translation == Add(s.gesture.value.translationOrigin, Sub(current, s.gesture.value.origin)) && r.rotation == s.rotation) &&
      (s.gesture.Some? && s.gesture.value.Rotation? ==>
        r.rotation == Add(s.gesture.value.rotationOrigin, Sub(current, s.gesture.value.origin)) && r.translation == s.translation) &&
      (s.gesture.None? ==> r.translation == s.translation && r.rotation == s.rotation)
  {
  }

  /** A left press from a known device starts a rotation when the super key is held and a
      movement otherwise, from the device's position; a release ends any gesture; a device
      whose position is unknown changes nothing. */
  lemma LeftButton(s: State, d: nat, pressed: bool)
    ensures var r := Next(s, MouseInput(d, pressed, Left));
      r.Returns? && r.value.response == Continue &&
      (d !in s.positions ==> r.value.state == s) &&
      (d in s.positions && !pressed ==> r.value.state == s.(gesture := None)) &&
      (d in s.positions && pressed && s.modifiers.superKey ==>
        r.value.state == s.(gesture := Some(Rotation(s.positions[d], s.rotation)))) &&
      (d in s.positions && pressed && !s.modifiers.superKey ==>
        r.value.state == s.(gesture := Some(Movement(s.positions[d], s.translation))))
  {
  }

  /** A middle press starts a rotation from the device's position and panics when that
      position is unknown; a release ends any gesture. */
  lemma MiddleButton(s: State, d: nat, pressed: bool)
    ensures var r := Next(s, MouseInput(d, pressed, Middle));
      (r.Panics? <==> pressed && d !in s.positions) &&
      (!pressed ==> r == Returns(Updated(s.(gesture := None), Continue))) &&
      (pressed && d in s.positions ==> r == Returns(Updated(s.(gesture := Some(Rotation(s.positions[d], s.rotation))), Continue)))
  {
  }

  /** Any right-button event resets the rotation to zero. */
  lemma RightButtonResets(s: State, d: nat, pressed: bool)
    ensures Next(s, MouseInput(d, pressed, Right)) == Returns(Updated(s.(rotation := VectorI(0, 0)), Continue))
  {
  }

  /** A moving line-delta wheel zooms by 16 pixels a line; a wheel event in another phase
      changes nothing. */
  lemma LineWheelZooms(s: State, moved: bool, lines: int)
    ensures var r := Next(s, LineWheel(moved, lines)).value.state;
      r.translationZ == s.translationZ + (if moved then 16 * lines else 0) &&
      r == s.(translationZ := r.translationZ)
  {
  }

  /** After a modifier change the modifiers are the new ones, whether they differed or
      not, and nothing else changes. */
  lemma ModifiersReplaced(s: State, m: Modifiers)
    ensures Next(s, ModifiersChanged(m)) == Returns(Updated(s.(modifiers := m), Continue))
  {
  }

  /** Dragging with the left button: pressing at a known position and moving the same
      device to `current` translates the page by the distance moved. */
  lemma DragTranslates(s: State, d: nat, current: VectorI)
    requires d in s.positions && !s.modifiers.superKey
    ensures var pressed := Next(s, MouseInput(d, true, Left)).value.state;
      var moved := Next(pressed, CursorMoved(d, current)).value.state;
      moved.translation == Add(s.translation, Sub(current, s.positions[d])) &&
      moved.rotation == s.rotation
  {
  }

  /** After a release no cursor move translates or rotates anything. */
  lemma ReleaseStopsFollowing(s: State, d: nat, b: MouseButton, other: nat, current: VectorI)
    requires b == Left || b == Middle
    requires b == Left ==> d in s.positions
    ensures var released := Next(s, MouseInput(d, false, b)).value.state;
      var moved := Next(released, CursorMoved(other, current)).value.state;
      moved.translation == s.translation && moved.rotation == s.rotation
  {
  }

  /** The state after a sequence of events, up to an exit or a panic: `update` is called
      once per event until it answers `Exit`. */
  function Run(s: State, events: seq<WindowEvent>): Outcome<State>
    decreases |events|
  {
    if events == [] then Returns(s)
    else match Next(s, events[0])
      case Panics => Panics
      case Returns(Updated(s1, Exit)) => Returns(s1)
      case Returns(Updated(s1, Continue)) => Run(s1, events[1..])
  }

  /** The zoom the wheel events before the first exit ask for. */
  function WheelZoom(events: seq<WindowEvent>): int
    decreases |events|
  {
    if events == [] then 0
    else match events[0]
      case CloseRequested => 0
      case KeyboardInput(pressed, escape) => if pressed && escape then 0 else WheelZoom(events[1..])
      case PixelWheel(moved, z) => (if moved then z else 0) + WheelZoom(events[1..])
      case LineWheel(moved, lines) => (if moved then lines * LineDeltaToZPixels else 0) + WheelZoom(events[1..])
      case _ => WheelZoom(events[1..])
  }

  /** The devices whose cursor moved before the first exit. */
  function MovedDevices(events: seq<WindowEvent>): set<nat>
    decreases |events|
  {
    if events == [] then {}
    else match events[0]
      case CloseRequested => {}
      case KeyboardInput(pressed, escape) => if pressed && escape then {} else MovedDevices(events[1..])
      case CursorMoved(d, _) => {d} + MovedDevices(events[1..])
      case _ => MovedDevices(events[1..])
  }

  /** Only the wheel zooms: after any events the zoom is the starting zoom plus the wheel
      deltas. */
  lemma {:induction false} ZoomIsWheelSum(s: State, events: seq<WindowEvent>)
    ensures Run(s, events).Returns? ==> Run(s, events).value.translationZ == s.translationZ + WheelZoom(events)
    decreases |events|
  {
    if events != [] && Next(s, events[0]).Returns? && Next(s, events[0]).value.response == Continue {
      ZoomIsWheelSum(Next(s, events[0]).value.state, events[1..]);
    }
  }

  /** Positions are never forgotten: the devices with a known position afterwards are the
      ones known before and the ones whose cursor moved. */
  lemma {:induction false} PositionsTracked(s: State, events: seq<WindowEvent>)
    ensures Run(s, events).Returns? ==> Run(s, events).value.positions.Keys == s.positions.Keys + MovedDevices(events)
    decreases |events|
  {
    if events != [] && Next(s, events[0]).Returns? && Next(s, events[0]).value.response == Continue {
      PositionsTracked(Next(s, events[0]).value.state, events[1..]);
    }
  }

  /** `Application`. */
  class Application {
    var gesture: Option<Gesture>
    var positions: map<nat, VectorI>
    var modifiers: Modifiers
    var translation: VectorI
    var translationZ: int
    var rotation: VectorI

    function Snapshot(): State
      reads this
    {
      State(gesture, positions, modifiers, translation, translationZ, rotation)
    }

    constructor()
      ensures Snapshot() == Default()
    {
      gesture := None;
      positions := map[];
      modifiers := Modifiers(false, false, false, false);
      translation := VectorI(0, 0);
      translationZ := 0;
      rotation := VectorI(0, 0);
    }

    /** `update`: changes the fields as `Next` says and returns its response; a panic
        leaves the fields as they were. */
    method Update(e: WindowEvent) returns (result: Outcome<UpdateResponse>)
      modifies this
      ensures result.Panics? <==> Next(old(Snapshot()), e).Panics?
      ensures result.Returns? ==> Next(old(Snapshot()), e) == Returns(Updated(Snapshot(), result.value))
      ensures result.Panics? ==> Snapshot() == old(Snapshot())
    {
      match e {
        case CloseRequested =>
          return Returns(Exit);
        case KeyboardInput(pressed, escape) =>
          if pressed && escape {
            return Returns(Exit);
          }
        case CursorMoved(d, current) =>
          positions := positions[d := current];
          match gesture {
            case Some(Movement(origin, translationOrigin)) =>
              var delta := Sub(current, origin);
              translation := Add(translationOrigin, delta);
            case Some(Rotation(origin, rotationOrigin)) =>
              var delta := Sub(current, origin);
              rotation := Add(rotationOrigin, delta);
            case None =>
          }
        case PixelWheel(moved, z) =>
          if moved {
            translationZ := translationZ + z;
          }
        case LineWheel(moved, lines) =>
          if moved {
            translationZ := translationZ + lines * LineDeltaToZPixels;
          }
        case MouseInput(d, pressed, button) =>
          match button {
            case Left =>
              if d in positions {
                if pressed {
                  if modifiers.superKey {
                    gesture := Some(Rotation(positions[d], rotation));
                  } else {
                    gesture := Some(Movement(positions[d], translation));
                  }
                } else {
                  gesture := None;
                }
              }
            case Middle =>
              if pressed {
                if d !in positions {
                  return Panics;
                }
                gesture := Some(Rotation(positions[d], rotation));
              } else {
                gesture := None;
              }
            case Right =>
              rotation := VectorI(0, 0);
            case OtherButton =>
          }
        case ModifiersChanged(m) =>
          if modifiers != m {
            modifiers := m;
          }
        case OtherEvent =>
      }
      result := Returns(Continue);
    }
  }
}
