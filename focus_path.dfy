/** Focus paths of the desktop (desktop/src/focus_path.rs): a path from the root of a focus
    hierarchy down to the focused element, and the transition from one path to another as
    a list of exits, deepest first, followed by a list of enters, shallowest first. Each
    transition names the whole prefix path it leaves or enters. */
module FocusPath {
  import opened Wrappers

  datatype Transition<T> = Exit(path: seq<T>) | Enter(path: seq<T>)

  /** `FocusPath::new`: the path of a single component. */
  function New<T>(component: T): (p: seq<T>)
    ensures |p| == 1 && p[0] == component
  {
    [component]
  }

  /** `join`: the path one level deeper. */
  function Join<T>(path: seq<T>, component: T): (p: seq<T>)
    ensures |p| == |path| + 1 && p[..|path|] == path && p[|path|] == component
  {
    path + [component]
  }

  /** `parent`: the path one level up, none for the empty path. */
  function Parent<T>(path: seq<T>): (r: Option<seq<T>>)
    ensures r.None? <==> path == []
    ensures r.Some? ==> Join(r.value, path[|path| - 1]) == path
  {
    if path == [] then None else Some(path[..|path| - 1])
  }

  /** The length of the longest common prefix: the paths agree below it and differ at it,
      unless one of them ends there. */
  function CommonPrefixLen<T(==)>(a: seq<T>, b: seq<T>): (c: nat)
    ensures c <= |a| && c <= |b|
    ensures a[..c] == b[..c]
    ensures c < |a| && c < |b| ==> a[c] != b[c]
    decreases |a|
  {
    if a == [] || b == [] || a[0] != b[0] then 0
    else
      var c' := CommonPrefixLen(a[1..], b[1..]);
      assert a[..c' + 1] == [a[0]] + a[1..][..c'];
      assert b[..c' + 1] == [b[0]] + b[1..][..c'];
      c' + 1
  }

  /** The exits from `path` down to depth `c`, deepest first. */
  function Exits<T>(path: seq<T>, c: nat): (r: seq<Transition<T>>)
    requires c <= |path|
    ensures |r| == |path| - c
  {
    seq(|path| - c, k requires 0 <= k < |path| - c => Exit(path[..|path| - k]))
  }

  /** The enters into `path` from depth `c`, shallowest first. */
  function Enters<T>(path: seq<T>, c: nat): (r: seq<Transition<T>>)
    requires c <= |path|
    ensures |r| == |path| - c
  {
    seq(|path| - c, k requires 0 <= k < |path| - c => Enter(path[..c + k + 1]))
  }

  /** The transitions from one path to another. */
  function Transitions<T(==)>(from: seq<T>, to: seq<T>): seq<Transition<T>> {
    var c := CommonPrefixLen(from, to);
    Exits(from, c) + Enters(to, c)
  }

  /** Following transitions from a path: an exit must leave the current path for its
      parent, an enter must go one level deeper from the current path. */
  function Walk<T(==)>(current: seq<T>, transitions: seq<Transition<T>>): Option<seq<T>>
    decreases |transitions|
  {
    if transitions == [] then Some(current)
    else match transitions[0]
      case Exit(p) =>
        if p == current && p != [] then Walk(p[..|p| - 1], transitions[1..]) else None
      case Enter(p) =>
        if p != [] && p[..|p| - 1] == current then Walk(p, transitions[1..]) else None
  }

  lemma {:induction false} WalkEnters<T>(to: seq<T>, c: nat)
    requires c <= |to|
    ensures Walk(to[..c], Enters(to, c)) == Some(to)
    decreases |to| - c
  {
    var e := Enters(to, c);
    if c == |to| {
      assert to[..c] == to;
    } else {
      assert e[0] == Enter(to[..c + 1]);
      assert to[..c + 1][..c] == to[..c];
      assert e[1..] == Enters(to, c + 1);
      WalkEnters(to, c + 1);
    }
  }

  /** Walking two lists of transitions is walking the first and then the second. */
  lemma {:induction false} WalkAppend<T>(current: seq<T>, a: seq<Transition<T>>, b: seq<Transition<T>>)
    ensures Walk(current, a + b) == if Walk(current, a).Some? then Walk(Walk(current, a).value, b) else None
    decreases |a|
  {
    if a == [] {
      assert a + b == b;
    } else {
      assert (a + b)[0] == a[0] && (a + b)[1..] == a[1..] + b;
      match a[0]
      case Exit(p) =>
        if p == current && p != [] {
          WalkAppend(p[..|p| - 1], a[1..], b);
        }
      case Enter(p) =>
        if p != [] && p[..|p| - 1] == current {
          WalkAppend(p, a[1..], b);
        }
    }
  }

  /** The exits from a non-empty path start with leaving it for its parent. */
  lemma ExitsCons<T>(from: seq<T>, c: nat)
    requires c < |from|
    ensures Exits(from, c) == [Exit(from)] + Exits(from[..|from| - 1], c)
  {
    var up := from[..|from| - 1];
    var x := Exits(from, c);
    assert x[0] == Exit(from[..|from|]) && from[..|from|] == from;
    forall k | 0 <= k < |up| - c
      ensures Exits(up, c)[k] == x[k + 1]
    {
      assert up[..|up| - k] == from[..|from| - (k + 1)];
    }
  }

  lemma {:induction false} WalkExits<T>(from: seq<T>, c: nat)
    requires c <= |from|
    ensures Walk(from, Exits(from, c)) == Some(from[..c])
    decreases |from| - c
  {
    if c == |from| {
      assert from[..c] == from;
    } else {
      var up := from[..|from| - 1];
      ExitsCons(from, c);
      WalkAppend(from, [Exit(from)], Exits(up, c));
      WalkExits(up, c);
      assert up[..c] == from[..c];
    }
  }

  /** Following the transitions from `from` is valid step by step and ends at `to`. */
  lemma TransitionsReachTarget<T>(from: seq<T>, to: seq<T>)
    ensures Walk(from, Transitions(from, to)) == Some(to)
  {
    var c := CommonPrefixLen(from, to);
    WalkAppend(from, Exits(from, c), Enters(to, c));
    WalkExits(from, c);
    WalkEnters(to, c);
  }

  /** There are as many transitions as levels to leave plus levels to enter; equal paths
      need none. */
  lemma TransitionCount<T>(from: seq<T>, to: seq<T>)
    ensures var c := CommonPrefixLen(from, to);
      |Transitions(from, to)| == (|from| - c) + (|to| - c)
    ensures from == to ==> Transitions(from, to) == []
  {
  }

  /** All exits come before all enters; exits get shallower by one level each and end at
      the common prefix's child, enters get deeper by one level each and end at the new
      path. */
  lemma TransitionsShape<T>(from: seq<T>, to: seq<T>)
    ensures var t := Transitions(from, to); var c := CommonPrefixLen(from, to);
      (forall k :: 0 <= k < |t| ==> (t[k].Exit? <==> k < |from| - c)) &&
      (forall k :: 0 <= k < |from| - c ==> |t[k].path| == |from| - k) &&
      (forall k :: |from| - c <= k < |t| ==> |t[k].path| == c + (k - (|from| - c)) + 1) &&
      (|to| > c ==> t[|t| - 1] == Enter(to))
  {
    var c := CommonPrefixLen(from, to);
    if |to| > c {
      assert to[..|to|] == to;
    }
  }

  /** `[1, 2]` to `[3, 4]`: exit `[1, 2]`, exit `[1]`, enter `[3]`, enter `[3, 4]`. */
  lemma DisjointPathsExample()
    ensures Transitions([1, 2], [3, 4]) == [Exit([1, 2]), Exit([1]), Enter([3]), Enter([3, 4])]
  {
    var a, b := [1, 2], [3, 4];
    assert CommonPrefixLen(a, b) == 0;
    assert a[..2] == a && a[..1] == [1] && b[..1] == [3] && b[..2] == b;
    assert Exits(a, 0) == [Exit(a), Exit([1])];
    assert Enters(b, 0) == [Enter([3]), Enter(b)];
  }

  /** `ABCD` to `ABEF`: exit `ABCD`, exit `ABC`, enter `ABE`, enter `ABEF`. */
  lemma SharedPrefixExample()
    ensures Transitions("ABCD", "ABEF") == [Exit("ABCD"), Exit("ABC"), Enter("ABE"), Enter("ABEF")]
  {
    var a, b := "ABCD", "ABEF";
    assert a[1..] == "BCD" && b[1..] == "BEF";
    assert a[1..][1..] == "CD" && b[1..][1..] == "EF";
    assert CommonPrefixLen("CD", "EF") == 0;
    assert CommonPrefixLen(a, b) == 2;
    assert a[..3] == "ABC" && a[..4] == a && b[..3] == "ABE" && b[..4] == b;
  }

  /** `FocusPath`. */
  class FocusPath<T(==)> {
    var components: seq<T>

    constructor(components: seq<T>)
      ensures this.components == components
    {
      this.components := components;
    }

    /** `transition`: the exits from the deepest level up to the common prefix, then the
        enters down to `other`, which becomes the path. */
    method Transition(other: seq<T>) returns (transitions: seq<Transition<T>>)
      modifies this
      ensures transitions == Transitions(old(components), other)
      ensures components == other
    {
      var c := CommonPrefixLen(components, other);
      transitions := [];
      var i := |components|;
      while i > c
        invariant c <= i <= |components|
        invariant transitions == Exits(components, c)[..|components| - i]
      {
        i := i - 1;
        transitions := transitions + [Exit(components[..i + 1])];
      }
      ghost var exits := transitions;
      assert exits == Exits(components, c);
      for j := c to |other|
        invariant transitions == exits + Enters(other, c)[..j - c]
      {
        assert Enters(other, c)[..j + 1 - c] == Enters(other, c)[..j - c] + [Enter(other[..j + 1])];
        transitions := transitions + [Enter(other[..j + 1])];
      }
      assert Enters(other, c)[..|other| - c] == Enters(other, c);
      components := other;
    }
  }
}
