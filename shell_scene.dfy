/** The shell's `Scene::render_to` (shell/src/scene.rs): ends the animation cycle, hands
    the scene's changes to the renderer and decides, from the shell event and the pacing,
    whether to resize, change the pacing and redraw, and in which order.

    The renderer is a log of the calls it receives; its pacing is what the last pacing
    update set. The scene's changes are a sequence of an opaque change type. */
module ShellScene {
  import opened Wrappers
  import Coordinator

  datatype RenderPacing = Fast | Smooth

  /** The window events `render_to` tells apart; every other one is `OtherWindowEvent`. */
  datatype WindowEvent = RedrawRequested | Resized(width: nat, height: nat) | OtherWindowEvent

  /** `ShellEvent`. */
  datatype ShellEvent = WindowEvent(windowId: nat, event: WindowEvent) | ApplyAnimations

  /** A call `render_to` makes on the renderer. */
  datatype RendererCall<C> =
    | PushChanges(changes: seq<C>)
    | Resize(size: (nat, nat))
    | UpdateRenderPacing(pacing: RenderPacing)
    | Redraw

  /** The new size, when the event resizes this window. */
  function ResizeOf(event: Option<ShellEvent>, windowId: nat): (r: Option<(nat, nat)>)
    ensures r.Some? <==> event.Some? && event.value.WindowEvent? && event.value.windowId == windowId && event.value.event.Resized?
    ensures r.Some? ==> r.value == (event.value.event.width, event.value.event.height)
  {
    match event
    case Some(WindowEvent(id, Resized(w, h))) => if id == windowId then Some((w, h)) else None
    case _ => None
  }

  /** Whether the event by itself asks for a redraw: this window's redraw request or
      resize, or the request to apply animations. */
  predicate EventRedraws(event: Option<ShellEvent>, windowId: nat) {
    match event
    case Some(WindowEvent(id, e)) => id == windowId && (e.RedrawRequested? || e.Resized?)
    case Some(ApplyAnimations) => true
    case None => false
  }

  /** The pacing change: Fast to Smooth as soon as animations are active; Smooth to Fast
      only when they are not and were applied in this cycle. */
  function NewPacing(pacing: RenderPacing, animationsActive: bool, animationsApplied: bool): (r: Option<RenderPacing>)
    ensures r == Some(Smooth) <==> pacing == Fast && animationsActive
    ensures r == Some(Fast) <==> pacing == Smooth && !animationsActive && animationsApplied
    ensures r.Some? ==> r.value != pacing
  {
    if pacing == Fast && animationsActive then Some(Smooth)
    else if pacing == Smooth && !animationsActive && animationsApplied then Some(Fast)
    else None
  }

  /** All the reasons `render_to` redraws. */
  predicate Redraws<C>(changes: seq<C>, event: Option<ShellEvent>, windowId: nat, pacing: RenderPacing, animationsActive: bool) {
    changes != [] || EventRedraws(event, windowId) || (pacing == Fast && animationsActive)
  }

  /** The calls `render_to` makes: the changes when there are any, then the resize, then
      the pacing change, then the redraw. */
  function Calls<C>(changes: seq<C>, event: Option<ShellEvent>, windowId: nat, pacing: RenderPacing, animationsActive: bool): seq<RendererCall<C>> {
    ChangesPart(changes) +
    ResizePart(ResizeOf(event, windowId)) +
    PacingPart(NewPacing(pacing, animationsActive, event == Some(ApplyAnimations))) +
    (if Redraws(changes, event, windowId, pacing, animationsActive) then [Redraw] else [])
  }

  function ChangesPart<C>(changes: seq<C>): seq<RendererCall<C>> {
    if changes != [] then [PushChanges(changes)] else []
  }

  function ResizePart<C>(resize: Option<(nat, nat)>): seq<RendererCall<C>> {
    if resize.Some? then [Resize(resize.value)] else []
  }

  function PacingPart<C>(pacing: Option<RenderPacing>): seq<RendererCall<C>> {
    if pacing.Some? then [UpdateRenderPacing(pacing.value)] else []
  }

  /** The position of a call kind in `render_to`'s order. */
  function Rank<C>(c: RendererCall<C>): nat {
    match c
    case PushChanges(_) => 0
    case Resize(_) => 1
    case UpdateRenderPacing(_) => 2
    case Redraw => 3
  }

  /** The calls come in the order changes, resize, pacing, redraw, each at most once. */
  lemma CallsOrdered<C>(changes: seq<C>, event: Option<ShellEvent>, windowId: nat, pacing: RenderPacing, animationsActive: bool)
    ensures var calls := Calls(changes, event, windowId, pacing, animationsActive);
      forall i, j :: 0 <= i < j < |calls| ==> Rank(calls[i]) < Rank(calls[j])
  {
  }

  /** A redraw happens exactly when there are changes, when the event asks for one, or when
      pacing switches from Fast to Smooth; it is the last call. */
  lemma RedrawExactly<C>(changes: seq<C>, event: Option<ShellEvent>, windowId: nat, pacing: RenderPacing, animationsActive: bool)
    ensures var calls := Calls(changes, event, windowId, pacing, animationsActive);
      (Redraw in calls <==> changes != [] || EventRedraws(event, windowId) || (pacing == Fast && animationsActive)) &&
      (Redraw in calls ==> calls[|calls| - 1] == Redraw)
  {
    var calls := Calls(changes, event, windowId, pacing, animationsActive);
    if Redraw in calls {
      var k :| 0 <= k < |calls| && calls[k] == Redraw;
      CallsOrdered(changes, event, windowId, pacing, animationsActive);
      if k < |calls| - 1 {
        assert Rank(calls[k]) < Rank(calls[|calls| - 1]);
      }
    }
  }

  /** Switching from Fast to Smooth always comes with a redraw after it, so that
      presentation timestamps follow. */
  lemma SmoothSwitchRedraws<C>(changes: seq<C>, event: Option<ShellEvent>, windowId: nat, animationsActive: bool)
    requires animationsActive
    ensures var calls := Calls(changes, event, windowId, Fast, animationsActive);
      exists i, j :: 0 <= i < j < |calls| && calls[i] == UpdateRenderPacing(Smooth) && calls[j] == Redraw
  {
    var calls := Calls(changes, event, windowId, Fast, animationsActive);
    assert calls[|calls| - 1] == Redraw;
    assert calls[|calls| - 2] == UpdateRenderPacing(Smooth);
  }

  /** An event for another window has the same effect as no event. */
  lemma OtherWindowIgnored<C>(changes: seq<C>, id: nat, e: WindowEvent, windowId: nat, pacing: RenderPacing, animationsActive: bool)
    requires id != windowId
    ensures Calls(changes, Some(WindowEvent(id, e)), windowId, pacing, animationsActive) == Calls(changes, None, windowId, pacing, animationsActive)
  {
  }

  /** The renderer side of `render_to`: a log of the calls it received and its current
      pacing, which a pacing update sets. */
  class Renderer<C> {
    const windowId: nat
    var pacing: RenderPacing
    var calls: seq<RendererCall<C>>

    constructor(windowId: nat, pacing: RenderPacing)
      ensures this.windowId == windowId && this.pacing == pacing && calls == []
    {
      this.windowId := windowId;
      this.pacing := pacing;
      calls := [];
    }
  }

  lemma AppendAssoc<T>(a: seq<T>, b: seq<T>, c: seq<T>)
    ensures (a + b) + c == a + (b + c)
  {
  }

  /** The decisions of `render_to`, taken step by step on local flags as the source does:
      the redraw flag starts out as "there were changes", the event may set it, record a
      new size or mark the animations applied, and the pacing switch may set it again. */
  method Decide(hadChanges: bool, event: Option<ShellEvent>, windowId: nat, pacing: RenderPacing, animationsActive: bool)
    returns (resize: Option<(nat, nat)>, newRenderPacing: Option<RenderPacing>, redraw: bool)
    ensures resize == ResizeOf(event, windowId)
    ensures newRenderPacing == NewPacing(pacing, animationsActive, event == Some(ApplyAnimations))
    ensures redraw <==> hadChanges || EventRedraws(event, windowId) || (pacing == Fast && animationsActive)
  {
    redraw := hadChanges;
    resize := None;
    var animationsApplied := false;
    match event {
      case Some(WindowEvent(id, windowEvent)) =>
        if id == windowId {
          match windowEvent {
            case RedrawRequested =>
              redraw := true;
            case Resized(w, h) =>
              resize := Some((w, h));
              redraw := true;
            case OtherWindowEvent =>
          }
        }
      case Some(ApplyAnimations) =>
        redraw := true;
        animationsApplied := true;
      case None =>
    }
    var animationsBefore := pacing == Smooth;
    match (animationsBefore, animationsActive, animationsApplied) {
      case (false, true, _) =>
        redraw := true;
        newRenderPacing := Some(Smooth);
      case (true, false, true) =>
        newRenderPacing := Some(Fast);
      case _ =>
        newRenderPacing := None;
    }
  }

  /** `Scene`: the scene's pending changes and the animation coordinator. */
  class Scene<C> {
    const coordinator: Coordinator.AnimationCoordinator
    var changes: seq<C>

    constructor(coordinator: Coordinator.AnimationCoordinator)
      ensures this.coordinator == coordinator && changes == []
    {
      this.coordinator := coordinator;
      changes := [];
    }

    /** `render_to`: ends the cycle, takes the changes and makes the calls `Calls`
        describes; the renderer's pacing ends up switched as `NewPacing` says. */
    method RenderTo(renderer: Renderer<C>, event: Option<ShellEvent>)
      modifies this, coordinator, renderer
      ensures coordinator.Inner() == Coordinator.Ended(old(coordinator.Inner()))
      ensures changes == []
      ensures renderer.calls == old(renderer.calls) +
        Calls(old(changes), event, renderer.windowId, old(renderer.pacing), coordinator.animating)
      ensures var p := NewPacing(old(renderer.pacing), coordinator.animating, event == Some(ApplyAnimations));
        renderer.pacing == if p.Some? then p.value else old(renderer.pacing)
    {
      var animationsActive := coordinator.EndCycle();
      var taken := changes;
      changes := [];
      ghost var log := renderer.calls;
      if taken != [] {
        renderer.calls := renderer.calls + [PushChanges(taken)];
      }
      ghost var made := ChangesPart(taken);
      assert renderer.calls == log + made;
      var resize, newRenderPacing, redraw := Decide(taken != [], event, renderer.windowId, renderer.pacing, animationsActive);
      if resize.Some? {
        renderer.calls := renderer.calls + [Resize(resize.value)];
      }
      AppendAssoc(log, made, ResizePart(resize));
      made := made + ResizePart(resize);
      if newRenderPacing.Some? {
        renderer.calls := renderer.calls + [UpdateRenderPacing(newRenderPacing.value)];
        renderer.pacing := newRenderPacing.value;
      }
      AppendAssoc(log, made, PacingPart(newRenderPacing));
      made := made + PacingPart(newRenderPacing);
      if redraw {
        renderer.calls := renderer.calls + [Redraw];
      }
      AppendAssoc(log, made, if redraw then [Redraw] else []);
      made := made + (if redraw then [Redraw] else []);
      assert made == Calls(old(changes), event, renderer.windowId, old(renderer.pacing), animationsActive);
    }
  }
}
