/** The focus tree (desktop/src/focus_tree.rs): the focused path into a focus hierarchy and
    the exits and enters a change of focus causes. It works exactly as the path transition
    of `FocusPath`, whose transitions and their properties it shares. */
module FocusTree {
  import FocusPath

  /** The focus tree's own mutable `FocusPath`. */
  class Path<T> {
    var components: seq<T>

    /** `FocusPath::new`. */
    constructor(component: T)
      ensures components == [component]
    {
      components := [component];
    }

    /** `push`: one level deeper. */
    method Push(component: T)
      modifies this
      ensures components == FocusPath.Join(old(components), component)
    {
      components := components + [component];
    }

    /** `take`: the path, which is left empty. */
    method Take() returns (taken: seq<T>)
      modifies this
      ensures taken == old(components) && components == []
    {
      taken := components;
      components := [];
    }
  }

  /** `FocusTree`. */
  class FocusTree<T(==)> {
    var focused: seq<T>

    /** `FocusTree::default`: nothing focused. */
    constructor()
      ensures focused == []
    {
      focused := [];
    }

    /** `focus`: exits bottom-up to the common prefix, enters top-down to the new path,
        which becomes the focused one. */
    method Focus(newPath: seq<T>) returns (transitions: seq<FocusPath.Transition<T>>)
      modifies this
      ensures transitions == FocusPath.Transitions(old(focused), newPath)
      ensures focused == newPath
    {
      transitions := [];
      var c := FocusPath.CommonPrefixLen(focused, newPath);
      var i := |focused|;
      while i > c
        invariant c <= i <= |focused|
        invariant transitions == FocusPath.Exits(focused, c)[..|focused| - i]
      {
        i := i - 1;
        transitions := transitions + [FocusPath.Exit(focused[..i + 1])];
      }
      ghost var exits := transitions;
      for j := c to |newPath|
        invariant transitions == exits + FocusPath.Enters(newPath, c)[..j - c]
      {
        assert FocusPath.Enters(newPath, c)[..j + 1 - c] == FocusPath.Enters(newPath, c)[..j - c] + [FocusPath.Enter(newPath[..j + 1])];
        transitions := transitions + [FocusPath.Enter(newPath[..j + 1])];
      }
      assert FocusPath.Enters(newPath, c)[..|newPath| - c] == FocusPath.Enters(newPath, c);
      focused := newPath;
    }
  }
}
