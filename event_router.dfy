/** The desktop's event router (desktop/src/event_router.rs): it decides which element of
    the focus hierarchy receives an input event, and keeps the elements' view of the
    pointer focus, the keyboard focus and the window focus consistent by sending them
    focus and cursor enter/leave events along the focus path transitions.

    Positions and hit results carry reals; the hit tester is a pair of function
    parameters, and the input event arrives with its device state already looked up. */
module EventRouter {
  import opened Wrappers
  import FocusPath

  datatype ScreenPos = ScreenPos(x: real, y: real)
  datatype Hit = Hit(x: real, y: real, z: real)

  /** The view events the router inspects; payloads it only forwards are abstract. */
  datatype ViewEvent =
    | Focused(focused: bool)
    | CursorMoved(device: nat, x: real, y: real)
    | CursorEntered(device: nat)
    | CursorLeft(device: nat)
    | MouseInput(device: nat, pressed: bool, button: nat)
    | MouseWheel(device: nat, delta: int)
    | KeyboardInput(key: nat)
    | Ime(text: string)
    | ModifiersChanged(modifiers: nat)
    /** `DroppedFile`, `HoveredFile`, `HoveredFileCancelled`, `CloseRequested`, `Resized`. */
    | OtherEvent(kind: nat)

  /** An input event with what the input state knows about its pointing device. */
  datatype InputEvent = InputEvent(event: ViewEvent, anyButtonPressed: bool, devicePos: Option<ScreenPos>)

  datatype HitResult<T> = HitResult(path: seq<T>, hit: Hit)

  datatype EventTransition<T> = Directed(path: seq<T>, event: ViewEvent) | Broadcast(event: ViewEvent)

  /** `EventTransitions`: the events to deliver, and the new keyboard focus if it changed. */
  datatype EventTransitions<T> = EventTransitions(transitions: seq<EventTransition<T>>, focusChanged: Option<seq<T>>)

  /** `OuterFocusState`: whether the window is focused, remembering the keyboard focus
      while it is not. */
  datatype OuterFocus<T> = Unfocused(focusedPreviously: seq<T>) | OuterFocused

  datatype State<T> = State(pointerFocus: seq<T>, keyboardFocus: seq<T>, outerFocus: OuterFocus<T>)

  /** The state and the log of events after handling something. */
  datatype Routed<T> = Routed(state: State<T>, log: seq<EventTransition<T>>)

  /** `Default`: nothing focused below the window, which is focused. */
  function Default<T>(): State<T> {
    State([], [], OuterFocused)
  }

  /** Each path transition directed at its path, as `onExit` or `onEnter`. */
  function Announce<T>(transitions: seq<FocusPath.Transition<T>>, onExit: ViewEvent, onEnter: ViewEvent): (r: seq<EventTransition<T>>)
    ensures |r| == |transitions|
  {
    seq(|transitions|, k requires 0 <= k < |transitions| =>
      Directed(transitions[k].path, if transitions[k].Exit? then onExit else onEnter))
  }

  /** `set_focus`: the focus transitions from one path to another. */
  function FocusEvents<T(==)>(from: seq<T>, to: seq<T>): seq<EventTransition<T>> {
    Announce(FocusPath.Transitions(from, to), Focused(false), Focused(true))
  }

  /** `set_pointer_focus`: the cursor leave/enter transitions from one path to another. */
  function PointerEvents<T(==)>(from: seq<T>, to: seq<T>, device: nat): seq<EventTransition<T>> {
    Announce(FocusPath.Transitions(from, to), CursorLeft(device), CursorEntered(device))
  }

  /** `TransitionLog::finalize`: the focus is reported only when it changed. */
  function Finalize<T(==)>(before: seq<T>, after: seq<T>, log: seq<EventTransition<T>>): (r: EventTransitions<T>)
    ensures r.transitions == log
    ensures r.focusChanged.Some? <==> before != after
    ensures r.focusChanged.Some? ==> r.focusChanged.value == after
  {
    EventTransitions(log, if before != after then Some(after) else None)
  }

  /** `set_outer_focus`: losing the window focus saves and empties the keyboard focus;
      regaining it restores the saved focus if nothing got focused meanwhile; a redundant
      change does nothing. */
  function OuterFocusChange<T(==)>(s: State<T>, focused: bool): Routed<T> {
    match s.outerFocus
    case Unfocused(previously) =>
      if !focused then Routed(s, [])
      else if s.keyboardFocus == [] then
        Routed(s.(keyboardFocus := previously, outerFocus := OuterFocused), FocusEvents(s.keyboardFocus, previously))
      else Routed(s.(outerFocus := OuterFocused), [])
    case OuterFocused =>
      if focused then Routed(s, [])
      else Routed(s.(keyboardFocus := [], outerFocus := Unfocused(s.keyboardFocus)), FocusEvents(s.keyboardFocus, []))
  }

  /** The `CursorMoved` branch of `process`, once the device position is known. */
  function CursorMove<T(==)>(s: State<T>, device: nat, anyPressed: bool, pos: ScreenPos,
                            hitTest: ScreenPos -> HitResult<T>, hitTestTarget: (ScreenPos, seq<T>) -> Option<Hit>): Routed<T> {
    if !anyPressed then
      var r := hitTest(pos);
      Routed(s.(pointerFocus := r.path),
             PointerEvents(s.pointerFocus, r.path, device) + [Directed(r.path, CursorMoved(device, r.hit.x, r.hit.y))])
    else match hitTestTarget(pos, s.pointerFocus)
      case Some(hit) => Routed(s, [Directed(s.pointerFocus, CursorMoved(device, hit.x, hit.y))])
      case None => Routed(s.(pointerFocus := []), PointerEvents(s.pointerFocus, [], device))
  }

  /** `process` without finalizing: a missing device position for a cursor movement
      panics. */
  function Route<T(==)>(s: State<T>, input: InputEvent, hitTest: ScreenPos -> HitResult<T>,
                        hitTestTarget: (ScreenPos, seq<T>) -> Option<Hit>): Outcome<Routed<T>> {
    match input.event
    case Focused(f) => Returns(OuterFocusChange(s, f))
    case CursorMoved(device, _, _) =>
      if input.devicePos.None? then Panics
      else Returns(CursorMove(s, device, input.anyButtonPressed, input.devicePos.value, hitTest, hitTestTarget))
    case MouseInput(_, pressed, _) =>
      if pressed && s.keyboardFocus != s.pointerFocus then
        Returns(Routed(s.(keyboardFocus := s.pointerFocus), FocusEvents(s.keyboardFocus, s.pointerFocus)))
      else Returns(Routed(s, [Directed(s.pointerFocus, input.event)]))
    case MouseWheel(_, _) => Returns(Routed(s, [Directed(s.pointerFocus, input.event)]))
    case KeyboardInput(_) => Returns(Routed(s, [Directed(s.keyboardFocus, input.event)]))
    case Ime(_) => Returns(Routed(s, [Directed(s.keyboardFocus, input.event)]))
    case ModifiersChanged(_) => Returns(Routed(s, [Broadcast(input.event)]))
    case CursorEntered(_) => Returns(Routed(s, []))
    case CursorLeft(_) => Returns(Routed(s, []))
    case OtherEvent(_) => Returns(Routed(s, []))
  }

  /** The focus events walk the focus hierarchy from the old path to the new one: each
      exited path gets `Focused(false)`, each entered path `Focused(true)`. */
  lemma FocusEventsFollowTransitions<T>(from: seq<T>, to: seq<T>)
    ensures var e := FocusEvents(from, to); var t := FocusPath.Transitions(from, to);
      |e| == |t| && FocusPath.Walk(from, t) == Some(to) &&
      forall k :: 0 <= k < |e| ==> e[k] == Directed(t[k].path, Focused(t[k].Enter?))
  {
    FocusPath.TransitionsReachTarget(from, to);
  }

  /** Losing and then regaining the window focus restores the keyboard focus, and the
      events of the two steps exit and then re-enter it. */
  lemma OuterFocusRoundTrip<T>(s: State<T>)
    requires s.outerFocus == OuterFocused
    ensures var u := OuterFocusChange(s, false); var f := OuterFocusChange(u.state, true);
      u.state.keyboardFocus == [] && u.state.outerFocus == Unfocused(s.keyboardFocus) &&
      f.state == s &&
      u.log == FocusEvents(s.keyboardFocus, []) && f.log == FocusEvents([], s.keyboardFocus)
  {
  }

  /** Regaining the window focus keeps a keyboard focus that is already set; a redundant
      change leaves everything as it is and sends nothing. */
  lemma OuterFocusRestoresOnlyEmpty<T>(s: State<T>, focused: bool)
    ensures s.outerFocus.Unfocused? && focused && s.keyboardFocus != [] ==>
      OuterFocusChange(s, focused) == Routed(s.(outerFocus := OuterFocused), [])
    ensures (s.outerFocus.Unfocused? && !focused) || (s.outerFocus.OuterFocused? && focused) ==>
      OuterFocusChange(s, focused) == Routed(s, [])
    ensures OuterFocusChange(s, focused).state.pointerFocus == s.pointerFocus
    ensures OuterFocusChange(s, focused).state.outerFocus.OuterFocused? <==> focused
  {
  }

  /** Without a button pressed the cursor re-hit-tests: the pointer focus moves to the hit
      path with leave/enter events, then the movement goes to it. With a button pressed
      the pointer focus stays, unless the old target is not hit anymore: then it is
      emptied and the movement is not forwarded. */
  lemma CursorMoveFocus<T>(s: State<T>, device: nat, anyPressed: bool, pos: ScreenPos,
                          hitTest: ScreenPos -> HitResult<T>, hitTestTarget: (ScreenPos, seq<T>) -> Option<Hit>)
    ensures var r := CursorMove(s, device, anyPressed, pos, hitTest, hitTestTarget);
      r.state.keyboardFocus == s.keyboardFocus && r.state.outerFocus == s.outerFocus &&
      (!anyPressed ==>
        (r.state.pointerFocus == hitTest(pos).path &&
         |r.log| >= 1 && r.log[|r.log| - 1].Directed? && r.log[|r.log| - 1].path == hitTest(pos).path &&
         r.log[|r.log| - 1].event.CursorMoved?)) &&
      (anyPressed && hitTestTarget(pos, s.pointerFocus).Some? ==> r.state == s && |r.log| == 1) &&
      (anyPressed && hitTestTarget(pos, s.pointerFocus).None? ==>
        (r.state.pointerFocus == [] && forall k :: 0 <= k < |r.log| ==> r.log[k].event == CursorLeft(device)))
  {
    if anyPressed && hitTestTarget(pos, s.pointerFocus).None? {
      var empty: seq<T> := [];
      var c := FocusPath.CommonPrefixLen(s.pointerFocus, empty);
      assert FocusPath.Enters(empty, c) == [];
    }
  }

  /** A press where keyboard and pointer focus differ moves the keyboard focus to the
      pointer focus and sends only focus events; otherwise the press goes to the pointer
      focus. */
  lemma PressMovesKeyboardFocus<T>(s: State<T>, input: InputEvent, hitTest: ScreenPos -> HitResult<T>,
                                   hitTestTarget: (ScreenPos, seq<T>) -> Option<Hit>)
    requires input.event.MouseInput? && input.event.pressed
    ensures var r := Route(s, input, hitTest, hitTestTarget);
      r.Returns? && r.value.state.pointerFocus == s.pointerFocus &&
      r.value.state.keyboardFocus == s.pointerFocus &&
      (s.keyboardFocus != s.pointerFocus ==>
        forall k :: 0 <= k < |r.value.log| ==> r.value.log[k].event.Focused?) &&
      (s.keyboardFocus == s.pointerFocus ==> r.value.log == [Directed(s.pointerFocus, input.event)])
  {
  }

  /** Keyboard and IME events go to the keyboard focus, modifier changes to everyone, and
      none of them changes the focus. */
  lemma KeyboardEventsGoToKeyboardFocus<T>(s: State<T>, input: InputEvent, hitTest: ScreenPos -> HitResult<T>,
                                          hitTestTarget: (ScreenPos, seq<T>) -> Option<Hit>)
    requires input.event.KeyboardInput? || input.event.Ime? || input.event.ModifiersChanged?
    ensures var r := Route(s, input, hitTest, hitTestTarget);
      r.Returns? && r.value.state == s &&
      r.value.log == if input.event.ModifiersChanged? then [Broadcast(input.event)] else [Directed(s.keyboardFocus, input.event)]
  {
  }

  /** Setting a focus path and reporting it; the focus-changed report is there exactly
      when the keyboard focus differs. */
  lemma FocusReported<T>(s: State<T>, path: seq<T>)
    ensures var r := Finalize(s.keyboardFocus, path, FocusEvents(s.keyboardFocus, path));
      (r.focusChanged.Some? <==> s.keyboardFocus != path) &&
      (s.keyboardFocus == path ==> r.transitions == [])
  {
  }

  /** `set_focus`/`set_pointer_focus`: transition `focus` to `newPath` and log one event per
      path transition. */
  method SetFocus<T(==)>(focus: seq<T>, newPath: seq<T>, onExit: ViewEvent, onEnter: ViewEvent) returns (newFocus: seq<T>, log: seq<EventTransition<T>>)
    ensures newFocus == newPath
    ensures log == Announce(FocusPath.Transitions(focus, newPath), onExit, onEnter)
  {
    var path := new FocusPath.FocusPath(focus);
    var transitions := path.Transition(newPath);
    newFocus := path.components;
    log := [];
    for i := 0 to |transitions|
      invariant log == Announce(transitions[..i], onExit, onEnter)
    {
      var event := if transitions[i].Exit? then onExit else onEnter;
      log := log + [Directed(transitions[i].path, event)];
    }
    assert transitions[..|transitions|] == transitions;
  }

  /** `EventRouter`. */
  class EventRouter<T(==)> {
    var pointerFocus: seq<T>
    var keyboardFocus: seq<T>
    var outerFocus: OuterFocus<T>

    function Snapshot(): State<T>
      reads this
    {
      State(pointerFocus, keyboardFocus, outerFocus)
    }

    /** `default`. */
    constructor()
      ensures Snapshot() == Default()
    {
      pointerFocus := [];
      keyboardFocus := [];
      outerFocus := OuterFocused;
    }

    /** `focused`: the keyboard focus. */
    function Focused(): seq<T>
      reads this
    {
      keyboardFocus
    }

    /** `focus`: move the keyboard focus to `path`. */
    method Focus(path: seq<T>) returns (result: EventTransitions<T>)
      modifies this
      ensures Snapshot() == old(Snapshot()).(keyboardFocus := path)
      ensures result == Finalize(old(keyboardFocus), path, FocusEvents(old(keyboardFocus), path))
    {
      var before := keyboardFocus;
      var log;
      keyboardFocus, log := SetFocus(keyboardFocus, path, ViewEvent.Focused(false), ViewEvent.Focused(true));
      result := Finalize(before, keyboardFocus, log);
    }

    method SetOuterFocus(focused: bool) returns (log: seq<EventTransition<T>>)
      modifies this
      ensures Routed(Snapshot(), log) == OuterFocusChange(old(Snapshot()), focused)
    {
      log := [];
      match outerFocus
      case Unfocused(previously) =>
        if focused {
          if keyboardFocus == [] {
            keyboardFocus, log := SetFocus(keyboardFocus, previously, ViewEvent.Focused(false), ViewEvent.Focused(true));
          }
          outerFocus := OuterFocused;
        }
      case OuterFocused =>
        if !focused {
          outerFocus := Unfocused(keyboardFocus);
          keyboardFocus, log := SetFocus(keyboardFocus, [], ViewEvent.Focused(false), ViewEvent.Focused(true));
        }
    }

    /** `process`: route one input event. */
    method Process(input: InputEvent, hitTest: ScreenPos -> HitResult<T>, hitTestTarget: (ScreenPos, seq<T>) -> Option<Hit>)
      returns (result: Outcome<EventTransitions<T>>)
      modifies this
      ensures match Route(old(Snapshot()), input, hitTest, hitTestTarget)
        case Panics => result.Panics?
        case Returns(r) => Snapshot() == r.state && result == Returns(Finalize(old(keyboardFocus), keyboardFocus, r.log))
    {
      ghost var s0 := Snapshot();
      var before := keyboardFocus;
      var log: seq<EventTransition<T>> := [];
      match input.event {
        case Focused(f) =>
          log := SetOuterFocus(f);
        case CursorMoved(device, _, _) =>
          if input.devicePos.None? {
            return Panics;
          }
          var pos := input.devicePos.value;
          var hit: Option<Hit>;
          if !input.anyButtonPressed {
            var r := hitTest(pos);
            pointerFocus, log := SetFocus(pointerFocus, r.path, CursorLeft(device), CursorEntered(device));
            hit := Some(r.hit);
          } else {
            hit := hitTestTarget(pos, pointerFocus);
            if hit.None? {
              pointerFocus, log := SetFocus(pointerFocus, [], CursorLeft(device), CursorEntered(device));
            }
          }
          if hit.Some? {
            log := log + [Directed(pointerFocus, CursorMoved(device, hit.value.x, hit.value.y))];
          }
          assert Routed(Snapshot(), log) == CursorMove(s0, device, input.anyButtonPressed, pos, hitTest, hitTestTarget);
        case MouseInput(_, pressed, _) =>
          if pressed && keyboardFocus != pointerFocus {
            keyboardFocus, log := SetFocus(keyboardFocus, pointerFocus, ViewEvent.Focused(false), ViewEvent.Focused(true));
          } else {
            log := [Directed(pointerFocus, input.event)];
          }
        case MouseWheel(_, _) =>
          log := [Directed(pointerFocus, input.event)];
        case KeyboardInput(_) =>
          log := [Directed(keyboardFocus, input.event)];
        case Ime(_) =>
          log := [Directed(keyboardFocus, input.event)];
        case ModifiersChanged(_) =>
          log := [Broadcast(input.event)];
        case CursorEntered(_) =>
        case CursorLeft(_) =>
        case OtherEvent(_) =>
      }
      assert Route(s0, input, hitTest, hitTestTarget) == Returns(Routed(Snapshot(), log));
      result := Returns(Finalize(before, keyboardFocus, log));
    }
  }
}
