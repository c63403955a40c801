/** Focus targets (desktop/src/focus_target.rs): a target knows its parent, its path is the
    chain of parents from the root down to it, and a change of target exits the elements
    of the old path bottom-up and enters those of the new one top-down, one element per
    transition.

    A target's parent is a function parameter. The source follows parents until there is
    none; here each parent must have a lower `rank` than its child, which makes every
    chain finite. */
module FocusTarget {
  import opened Wrappers
  import FocusPath

  datatype Transition<T> = Exit(target: T) | Enter(target: T)

  /** Every parent ranks below its child. */
  ghost predicate ParentLowersRank<T(!new)>(parent: T -> Option<T>, rank: T -> nat) {
    forall t :: parent(t).Some? ==> rank(parent(t).value) < rank(t)
  }

  /** `FocusPath::from(target)`: the parent chain, root first, ending with the target. */
  function Hierarchy<T(!new)>(target: T, parent: T -> Option<T>, rank: T -> nat): (path: seq<T>)
    requires ParentLowersRank(parent, rank)
    ensures |path| >= 1 && path[|path| - 1] == target
    ensures parent(path[0]).None?
    ensures forall i :: 0 < i < |path| ==> parent(path[i]) == Some(path[i - 1])
    decreases rank(target)
  {
    match parent(target)
    case None => [target]
    case Some(p) => Hierarchy(p, parent, rank) + [target]
  }

  /** `target`: the last element; an empty path panics. */
  function Target<T>(path: seq<T>): (r: Outcome<T>)
    ensures r.Panics? <==> path == []
    ensures r.Returns? ==> r.value == path[|path| - 1]
  {
    if path == [] then Panics else Returns(path[|path| - 1])
  }

  /** The exits of the elements of `path` below depth `c`, deepest first. */
  function Exits<T>(path: seq<T>, c: nat): (r: seq<Transition<T>>)
    requires c <= |path|
    ensures |r| == |path| - c
  {
    seq(|path| - c, k requires 0 <= k < |path| - c => Exit(path[|path| - 1 - k]))
  }

  /** The enters of the elements of `path` from depth `c`, shallowest first. */
  function Enters<T>(path: seq<T>, c: nat): (r: seq<Transition<T>>)
    requires c <= |path|
    ensures |r| == |path| - c
  {
    seq(|path| - c, k requires 0 <= k < |path| - c => Enter(path[c + k]))
  }

  /** The transitions from one path to another, element by element. */
  function Transitions<T(==)>(from: seq<T>, to: seq<T>): seq<Transition<T>> {
    var c := FocusPath.CommonPrefixLen(from, to);
    Exits(from, c) + Enters(to, c)
  }

  /** Each element transition is the path transition at the same position, reduced to the
      path's last element. */
  lemma ElementsOfPathTransitions<T>(from: seq<T>, to: seq<T>)
    ensures var e := Transitions(from, to); var p := FocusPath.Transitions(from, to);
      |e| == |p| &&
      forall k :: 0 <= k < |e| ==>
        p[k].path != [] && (e[k].Exit? <==> p[k].Exit?) && e[k].target == p[k].path[|p[k].path| - 1]
  {
  }

  /** Moving to the parent exits just the child; moving to a child enters just the child. */
  lemma ParentAndChild<T(!new)>(child: T, parent: T -> Option<T>, rank: T -> nat)
    requires ParentLowersRank(parent, rank) && parent(child).Some?
    ensures var c := Hierarchy(child, parent, rank); var p := Hierarchy(parent(child).value, parent, rank);
      Transitions(c, p) == [Exit(child)] && Transitions(p, c) == [Enter(child)]
  {
    var c := Hierarchy(child, parent, rank);
    var p := Hierarchy(parent(child).value, parent, rank);
    assert c == p + [child];
    PrefixIsCommon(p, c);
    CommonPrefixSymmetric(c, p);
  }

  lemma {:induction false} PrefixIsCommon<T>(p: seq<T>, c: seq<T>)
    requires |p| <= |c| && c[..|p|] == p
    ensures FocusPath.CommonPrefixLen(p, c) == |p|
    decreases |p|
  {
    if p != [] {
      assert c[1..][..|p| - 1] == p[1..];
      PrefixIsCommon(p[1..], c[1..]);
    }
  }

  lemma {:induction false} CommonPrefixSymmetric<T>(a: seq<T>, b: seq<T>)
    ensures FocusPath.CommonPrefixLen(a, b) == FocusPath.CommonPrefixLen(b, a)
    decreases |a|
  {
    if a != [] && b != [] && a[0] == b[0] {
      CommonPrefixSymmetric(a[1..], b[1..]);
    }
  }

  /** The targets of the source's example: a path of numbers whose parent drops the last
      number. */
  function ListParent(t: seq<int>): Option<seq<int>> {
    if t == [] then None else Some(t[..|t| - 1])
  }

  function ListRank(t: seq<int>): nat {
    |t|
  }

  /** `[1]` to `[1, 2, 3]`: enter `[1, 2]`, enter `[1, 2, 3]`; and back: exit `[1, 2, 3]`,
      exit `[1, 2]`. */
  lemma DeeperTargetExample()
    ensures ParentLowersRank(ListParent, ListRank)
    ensures var p := Hierarchy([1], ListParent, ListRank); var c := Hierarchy([1, 2, 3], ListParent, ListRank);
      Transitions(p, c) == [Enter([1, 2]), Enter([1, 2, 3])] &&
      Transitions(c, p) == [Exit([1, 2, 3]), Exit([1, 2])]
  {
    assert ListParent([]) == None;
    assert ListParent([1]) == Some([]) by { assert [1][..0] == []; }
    assert ListParent([1, 2]) == Some([1]) by { assert [1, 2][..1] == [1]; }
    assert ListParent([1, 2, 3]) == Some([1, 2]) by { assert [1, 2, 3][..2] == [1, 2]; }
    var p := Hierarchy([1], ListParent, ListRank);
    var c := Hierarchy([1, 2, 3], ListParent, ListRank);
    assert Hierarchy([], ListParent, ListRank) == [[]];
    assert p == [[], [1]];
    assert Hierarchy([1, 2], ListParent, ListRank) == [[], [1], [1, 2]];
    assert c == [[], [1], [1, 2], [1, 2, 3]];
    PrefixIsCommon(p, c);
    CommonPrefixSymmetric(c, p);
  }

  /** `FocusPath` of targets. */
  class Path<T(==)> {
    var components: seq<T>

    constructor(components: seq<T>)
      ensures this.components == components
    {
      this.components := components;
    }

    /** `transition`: exits of the old elements bottom-up, enters of the new ones top-down;
        the path becomes `other`. */
    method Transition(other: seq<T>) returns (transitions: seq<Transition<T>>)
      modifies this
      ensures transitions == Transitions(old(components), other)
      ensures components == other
    {
      var c := FocusPath.CommonPrefixLen(components, other);
      transitions := [];
      var i := |components|;
      while i > c
        invariant c <= i <= |components|
        invariant transitions == Exits(components, c)[..|components| - i]
      {
        i := i - 1;
        transitions := transitions + [Exit(components[i])];
      }
      ghost var exits := transitions;
      for j := c to |other|
        invariant transitions == exits + Enters(other, c)[..j - c]
      {
        assert Enters(other, c)[..j + 1 - c] == Enters(other, c)[..j - c] + [Enter(other[j])];
        transitions := transitions + [Enter(other[j])];
      }
      assert Enters(other, c)[..|other| - c] == Enters(other, c);
      components := other;
    }
  }

  /** A focused target, which `ToHierarchy::transition` replaces. */
  class Focused<T(==, !new)> {
    var target: T

    constructor(target: T)
      ensures this.target == target
    {
      this.target := target;
    }

    /** `ToHierarchy::transition`: the transitions between the two targets' paths; the
        target becomes `other`. */
    method Transition(other: T, parent: T -> Option<T>, rank: T -> nat) returns (transitions: seq<Transition<T>>)
      requires ParentLowersRank(parent, rank)
      modifies this
      ensures transitions == Transitions(Hierarchy(old(target), parent, rank), Hierarchy(other, parent, rank))
      ensures target == other
    {
      var fromH := new Path(Hierarchy(target, parent, rank));
      var toH := Hierarchy(other, parent, rank);
      transitions := fromH.Transition(toH);
      target := other;
    }
  }
}
