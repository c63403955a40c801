/** The desktop's focus manager (desktop/src/focus_manager.rs): at most one instance is
    focused, and within it at most one view. Changing the focus produces the transitions
    that leave the old focus and reach the new one: a view is unfocused before its
    instance, an instance is focused before its view. */
module FocusManager {
  import opened Wrappers

  type InstanceId = nat
  type ViewId = nat

  /** `ViewPath`: a view and the instance it belongs to. */
  datatype ViewPath = ViewPath(instance: InstanceId, view: ViewId)

  /** `FocusPath`: the focused instance and, possibly, its focused view. */
  datatype FocusPath = FocusPath(instance: InstanceId, view: Option<ViewId>)

  datatype FocusTransition =
    | UnfocusView(viewPath: ViewPath)
    | FocusView(viewPath: ViewPath)
    | UnfocusInstance(instance: InstanceId)
    | FocusInstance(instance: InstanceId)

  /** A new focus and the transitions that led there. */
  datatype Focused<S> = Focused(state: S, transitions: seq<FocusTransition>)

  /** `From<ViewPath> for FocusPath`. */
  function FromViewPath(p: ViewPath): (f: FocusPath)
    ensures f.instance == p.instance && f.view == Some(p.view)
  {
    FocusPath(p.instance, Some(p.view))
  }

  /** `FocusPath::unfocus_view`: the path without its view. */
  function PathUnfocusView(path: FocusPath): (r: Focused<FocusPath>)
    ensures r.state == path.(view := None)
    ensures r.transitions == if path.view.Some? then [UnfocusView(ViewPath(path.instance, path.view.value))] else []
  {
    match path.view
    case Some(v) => Focused(path.(view := None), [UnfocusView(ViewPath(path.instance, v))])
    case None => Focused(path, [])
  }

  /** `FocusPath::focus_view`: nothing for the same view; otherwise unfocus the old one
      and focus the new one, if any. */
  function PathFocusView(path: FocusPath, newView: Option<ViewId>): Focused<FocusPath> {
    if path.view == newView then Focused(path, [])
    else
      var u := PathUnfocusView(path);
      match newView
      case Some(v) => Focused(u.state.(view := Some(v)), u.transitions + [FocusView(ViewPath(path.instance, v))])
      case None => u
  }

  /** `FocusManager::unfocus`: nothing is focused afterwards. */
  function UnfocusOf(current: Option<FocusPath>): Focused<Option<FocusPath>> {
    match current
    case None => Focused(None, [])
    case Some(p) =>
      Focused(None, (if p.view.Some? then [UnfocusView(ViewPath(p.instance, p.view.value))] else []) + [UnfocusInstance(p.instance)])
  }

  /** `FocusManager::unfocus_view`: the instance stays focused. */
  function UnfocusViewOf(current: Option<FocusPath>): Focused<Option<FocusPath>> {
    match current
    case None => Focused(None, [])
    case Some(p) =>
      var u := PathUnfocusView(p);
      Focused(Some(u.state), u.transitions)
  }

  /** `FocusManager::focus`: only view transitions within the focused instance; otherwise
      unfocus everything, focus the instance and then the view, if any. */
  function FocusOf(current: Option<FocusPath>, target: FocusPath): Focused<Option<FocusPath>> {
    if current.Some? && current.value.instance == target.instance then
      var f := PathFocusView(current.value, target.view);
      Focused(Some(f.state), f.transitions)
    else
      var u := UnfocusOf(current);
      var f := PathFocusView(FocusPath(target.instance, None), target.view);
      Focused(Some(f.state), u.transitions + [FocusInstance(target.instance)] + f.transitions)
  }

  /** `focused_instance`. */
  function FocusedInstance(current: Option<FocusPath>): (r: Option<InstanceId>)
    ensures r.Some? <==> current.Some?
    ensures r.Some? ==> r.value == current.value.instance
  {
    match current
    case Some(p) => Some(p.instance)
    case None => None
  }

  /** `focused_view`: some exactly when an instance and a view in it are focused. */
  function FocusedView(current: Option<FocusPath>): (r: Option<ViewPath>)
    ensures r.Some? <==> current.Some? && current.value.view.Some?
    ensures r.Some? ==> r.value == ViewPath(current.value.instance, current.value.view.value)
  {
    match current
    case Some(FocusPath(i, Some(v))) => Some(ViewPath(i, v))
    case _ => None
  }

  /** Applying transitions one by one to a focus: a view is unfocused only when it is the
      focused one, an instance only when it is focused without a view; a view is focused
      only in the focused instance that has none yet, an instance only when nothing is
      focused. */
  function Apply(current: Option<FocusPath>, transitions: seq<FocusTransition>): Option<Option<FocusPath>>
    decreases |transitions|
  {
    if transitions == [] then Some(current)
    else
      var next := match transitions[0]
        case UnfocusView(vp) =>
          if current == Some(FocusPath(vp.instance, Some(vp.view))) then Some(Some(FocusPath(vp.instance, None))) else None
        case FocusView(vp) =>
          if current == Some(FocusPath(vp.instance, None)) then Some(Some(FocusPath(vp.instance, Some(vp.view)))) else None
        case UnfocusInstance(i) =>
          if current == Some(FocusPath(i, None)) then Some(None) else None
        case FocusInstance(i) =>
          if current.None? then Some(Some(FocusPath(i, None))) else None;
      if next.None? then None else Apply(next.value, transitions[1..])
  }

  lemma {:induction false} ApplyAppend(current: Option<FocusPath>, a: seq<FocusTransition>, b: seq<FocusTransition>)
    ensures Apply(current, a + b) == if Apply(current, a).Some? then Apply(Apply(current, a).value, b) else None
    decreases |a|
  {
    if a == [] {
      assert a + b == b;
    } else {
      assert (a + b)[0] == a[0] && (a + b)[1..] == a[1..] + b;
      var next := match a[0]
        case UnfocusView(vp) =>
          if current == Some(FocusPath(vp.instance, Some(vp.view))) then Some(Some(FocusPath(vp.instance, None))) else None
        case FocusView(vp) =>
          if current == Some(FocusPath(vp.instance, None)) then Some(Some(FocusPath(vp.instance, Some(vp.view)))) else None
        case UnfocusInstance(i) =>
          if current == Some(FocusPath(i, None)) then Some(None) else None
        case FocusInstance(i) =>
          if current.None? then Some(Some(FocusPath(i, None))) else None;
      if next.Some? {
        ApplyAppend(next.value, a[1..], b);
      }
    }
  }

  lemma PathFocusViewApplies(path: FocusPath, newView: Option<ViewId>)
    ensures var f := PathFocusView(path, newView);
      Apply(Some(path), f.transitions) == Some(Some(f.state)) && f.state == path.(view := newView)
  {
    var f := PathFocusView(path, newView);
    if path.view != newView {
      var u := PathUnfocusView(path);
      assert Apply(Some(path), u.transitions) == Some(Some(u.state));
      if newView.Some? {
        ApplyAppend(Some(path), u.transitions, [FocusView(ViewPath(path.instance, newView.value))]);
      }
    }
  }

  lemma UnfocusApplies(current: Option<FocusPath>)
    ensures Apply(current, UnfocusOf(current).transitions) == Some(None)
  {
    if current.Some? && current.value.view.Some? {
      var p := current.value;
      ApplyAppend(current, [UnfocusView(ViewPath(p.instance, p.view.value))], [UnfocusInstance(p.instance)]);
    }
  }

  /** Focusing reaches exactly the target, and its transitions are a valid way there from
      the old focus. */
  lemma FocusReachesTarget(current: Option<FocusPath>, target: FocusPath)
    ensures FocusOf(current, target).state == Some(target)
    ensures Apply(current, FocusOf(current, target).transitions) == Some(Some(target))
  {
    if current.Some? && current.value.instance == target.instance {
      PathFocusViewApplies(current.value, target.view);
    } else {
      var u := UnfocusOf(current);
      UnfocusApplies(current);
      var f := PathFocusView(FocusPath(target.instance, None), target.view);
      PathFocusViewApplies(FocusPath(target.instance, None), target.view);
      ApplyAppend(current, u.transitions, [FocusInstance(target.instance)]);
      ApplyAppend(current, u.transitions + [FocusInstance(target.instance)], f.transitions);
    }
  }

  /** Unfocusing the view keeps the instance and is a valid transition. */
  lemma UnfocusViewKeepsInstance(current: Option<FocusPath>)
    ensures var r := UnfocusViewOf(current);
      FocusedInstance(r.state) == FocusedInstance(current) && FocusedView(r.state).None? &&
      Apply(current, r.transitions) == Some(r.state) &&
      (r.transitions != [] <==> FocusedView(current).Some?)
  {
  }

  /** Focusing another instance unfocuses the old view, then the old instance, then focuses
      the new instance and then its view; the same instance sees only view transitions,
      and none for the same view. */
  lemma FocusOrder(current: Option<FocusPath>, target: FocusPath)
    ensures current.Some? && current.value.instance != target.instance ==>
      FocusOf(current, target).transitions ==
        UnfocusOf(current).transitions + [FocusInstance(target.instance)] +
        (if target.view.Some? then [FocusView(ViewPath(target.instance, target.view.value))] else [])
    ensures current.Some? && current.value.instance == target.instance ==>
      forall t :: t in FocusOf(current, target).transitions ==> t.UnfocusView? || t.FocusView?
    ensures current == Some(target) ==> FocusOf(current, target).transitions == []
  {
  }

  /** `FocusManager`. */
  class FocusManager {
    var current: Option<FocusPath>

    /** `new`: nothing focused. */
    constructor()
      ensures current.None?
    {
      current := None;
    }

    method Focus(target: FocusPath) returns (transitions: seq<FocusTransition>)
      modifies this
      ensures Focused(current, transitions) == FocusOf(old(current), target)
    {
      if current.Some? && current.value.instance == target.instance {
        var f := PathFocusView(current.value, target.view);
        current := Some(f.state);
        return f.transitions;
      }
      transitions := Unfocus();
      var newPath := FocusPath(target.instance, None);
      transitions := transitions + [FocusInstance(target.instance)];
      var f := PathFocusView(newPath, target.view);
      transitions := transitions + f.transitions;
      current := Some(f.state);
    }

    method UnfocusView() returns (transitions: seq<FocusTransition>)
      modifies this
      ensures Focused(current, transitions) == UnfocusViewOf(old(current))
    {
      if current.None? {
        return [];
      }
      var instance := current.value;
      if instance.view.Some? {
        var view := instance.view.value;
        current := Some(instance.(view := None));
        return [FocusTransition.UnfocusView(ViewPath(instance.instance, view))];
      }
      transitions := [];
    }

    method Unfocus() returns (transitions: seq<FocusTransition>)
      modifies this
      ensures Focused(current, transitions) == UnfocusOf(old(current))
    {
      transitions := [];
      var taken := current;
      current := None;
      if taken.None? {
        return;
      }
      var instance := taken.value;
      if instance.view.Some? {
        transitions := transitions + [FocusTransition.UnfocusView(ViewPath(instance.instance, instance.view.value))];
      }
      transitions := transitions + [UnfocusInstance(instance.instance)];
    }
  }
}
