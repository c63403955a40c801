/** The incremental layouter of layout/src/incremental_layouter.rs: per-node caches of
    outer sizes, cached children and absolute rects, recomputed only for the nodes marked
    pending and their ancestors, with clean branches reused from the cache and shifted when
    only their position moved. */
module IncrementalLayouters {
  import opened Wrappers
  import D = DimensionalTypes

  // The abstract parameters

  /** `LayoutTopology`, answered from a finite graph: the nodes present, each node's
      children in order and each node's parent. */
  datatype Topology<Id> = Topology(present: set<Id>, children: map<Id, seq<Id>>, parents: map<Id, Id>)
  {
    /** `exists`. */
    predicate Exists(id: Id) {
      id in present
    }

    /** `children_of`: no children for a node the graph does not list. */
    function ChildrenOf(id: Id): seq<Id> {
      if id in children then children[id] else []
    }

    /** `parent_of`. */
    function ParentOf(id: Id): Option<Id> {
      if id in parents then Some(parents[id]) else None
    }
  }

  /** `LayoutAlgorithm`: a node's outer size from its children's outer sizes, and one
      absolute offset per child from the node's absolute offset and its children's sizes. */
  datatype Algorithm<!Id> = Algorithm(
    measure: (Id, seq<D.Size>) -> D.Size,
    placeChildren: (Id, D.Offset, seq<D.Size>) -> seq<D.Offset>)

  /** Every offset the algorithm returns has `rank` components, as `Offset<RANK>` has. */
  ghost predicate PlacesRanked<Id(!new)>(alg: Algorithm<Id>, rank: nat) {
    forall id, o, sizes, k :: 0 <= k < |alg.placeChildren(id, o, sizes)| ==> |alg.placeChildren(id, o, sizes)[k]| == rank
  }

  /** `NodeState`: the outer size measured last and the children seen at the last refresh. */
  datatype NodeState<Id> = NodeState(cachedOuterSize: D.Size, cachedChildren: seq<Id>)

  // Offsets

  /** `Offset + Offset`, component by component. */
  function Moved(o: D.Offset, delta: D.Offset): (r: D.Offset)
    requires |o| == |delta|
    ensures |r| == |o|
  {
    seq(|o|, i requires 0 <= i < |o| => o[i] + delta[i])
  }

  /** Every cached rect has an offset of `rank` components. */
  ghost predicate RanksOffsets<Id>(rects: map<Id, D.Box>, rank: nat) {
    forall id | id in rects :: |rects[id].offset| == rank
  }

  // The stream of changed rects

  /** The rect cache after the changes are written into it in order. */
  function Replay<Id>(rects: map<Id, D.Box>, changes: seq<(Id, D.Box)>): map<Id, D.Box>
    decreases |changes|
  {
    if changes == [] then rects else Replay(rects[changes[0].0 := changes[0].1], changes[1..])
  }

  /** Each change differs from the rect cached just before it. */
  ghost predicate Genuine<Id>(rects: map<Id, D.Box>, changes: seq<(Id, D.Box)>)
    decreases |changes|
  {
    changes == [] ||
    ((changes[0].0 !in rects || rects[changes[0].0] != changes[0].1) &&
     Genuine(rects[changes[0].0 := changes[0].1], changes[1..]))
  }

  /** Each change moves the rect cached just before it by `delta` and keeps its size. */
  ghost predicate ShiftedBy<Id>(rects: map<Id, D.Box>, changes: seq<(Id, D.Box)>, delta: D.Offset)
    decreases |changes|
  {
    changes == [] ||
    (changes[0].0 in rects && |rects[changes[0].0].offset| == |delta| &&
     changes[0].1 == D.Box(Moved(rects[changes[0].0].offset, delta), rects[changes[0].0].size) &&
     ShiftedBy(rects[changes[0].0 := changes[0].1], changes[1..], delta))
  }

  /** Replaying two runs of changes is replaying their concatenation, and genuine runs stay
      genuine when joined. */
  lemma {:induction false} ReplayAppend<Id>(rects: map<Id, D.Box>, a: seq<(Id, D.Box)>, b: seq<(Id, D.Box)>)
    ensures Replay(rects, a + b) == Replay(Replay(rects, a), b)
    ensures Genuine(rects, a) && Genuine(Replay(rects, a), b) ==> Genuine(rects, a + b)
    decreases |a|
  {
    if a != [] {
      assert (a + b)[0] == a[0] && (a + b)[1..] == a[1..] + b;
      ReplayAppend(rects[a[0].0 := a[0].1], a[1..], b);
    } else {
      assert a + b == b;
    }
  }

  /** Joined runs of shifts by the same delta are a run of shifts. */
  lemma {:induction false} ShiftedAppend<Id>(rects: map<Id, D.Box>, a: seq<(Id, D.Box)>, b: seq<(Id, D.Box)>, delta: D.Offset)
    requires ShiftedBy(rects, a, delta) && ShiftedBy(Replay(rects, a), b, delta)
    ensures ShiftedBy(rects, a + b, delta)
    decreases |a|
  {
    if a != [] {
      assert (a + b)[0] == a[0] && (a + b)[1..] == a[1..] + b;
      ShiftedAppend(rects[a[0].0 := a[0].1], a[1..], b, delta);
    } else {
      assert a + b == b;
    }
  }

  /** Shifting neither adds nor drops a cached rect and keeps every size. */
  lemma {:induction false} ShiftKeepsSizes<Id>(rects: map<Id, D.Box>, changes: seq<(Id, D.Box)>, delta: D.Offset)
    requires ShiftedBy(rects, changes, delta)
    ensures Replay(rects, changes).Keys == rects.Keys
    ensures forall id | id in rects :: Replay(rects, changes)[id].size == rects[id].size
    decreases |changes|
  {
    if changes != [] {
      ShiftKeepsSizes(rects[changes[0].0 := changes[0].1], changes[1..], delta);
    }
  }

  // Affected nodes

  /** The `n`-th ancestor of `id` in the topology, `id` itself for 0. */
  function AncestorAt<Id>(t: Topology<Id>, id: Id, n: nat): Option<Id> {
    if n == 0 then Some(id)
    else match AncestorAt(t, id, n - 1)
      case None => None
      case Some(a) => t.ParentOf(a)
  }

  /** `x` is `id` or one of its ancestors. */
  ghost predicate AncestorOrSelf<Id>(t: Topology<Id>, id: Id, x: Id) {
    exists n: nat :: AncestorAt(t, id, n) == Some(x)
  }

  /** The parent of every member is a member. */
  ghost predicate UpwardClosed<Id>(t: Topology<Id>, s: set<Id>) {
    forall x | x in s :: t.ParentOf(x).Some? ==> t.ParentOf(x).value in s
  }

  /** An upward closed set holding `id` holds all its ancestors. */
  lemma {:induction false} ClosedHoldsAncestors<Id>(t: Topology<Id>, s: set<Id>, id: Id, n: nat)
    requires UpwardClosed(t, s) && id in s
    ensures AncestorAt(t, id, n).Some? ==> AncestorAt(t, id, n).value in s
  {
    if n > 0 {
      ClosedHoldsAncestors(t, s, id, n - 1);
    }
  }

  /** The affected set is the least upward closed set holding the pending nodes. */
  lemma AffectedIsLeast<Id>(t: Topology<Id>, pending: seq<Id>, affected: set<Id>, s: set<Id>)
    requires forall x | x in affected :: exists i :: 0 <= i < |pending| && AncestorOrSelf(t, pending[i], x)
    requires UpwardClosed(t, s) && forall i :: 0 <= i < |pending| ==> pending[i] in s
    ensures affected <= s
  {
    forall x | x in affected
      ensures x in s
    {
      var i :| 0 <= i < |pending| && AncestorOrSelf(t, pending[i], x);
      var n: nat :| AncestorAt(t, pending[i], n) == Some(x);
      ClosedHoldsAncestors(t, s, pending[i], n);
    }
  }

  /** `collect_affected_roots`: the affected nodes whose parent is absent or unaffected. */
  function AffectedRoots<Id>(t: Topology<Id>, affected: set<Id>): (r: set<Id>)
    ensures r <= affected
  {
    set id | id in affected && (t.ParentOf(id).None? || t.ParentOf(id).value !in affected)
  }

  /** Of an upward closed affected set, the affected roots are the members without a
      parent; with a single parentless root that is the root alone. */
  lemma ClosedAffectedRoots<Id>(t: Topology<Id>, affected: set<Id>, root: Id)
    requires UpwardClosed(t, affected)
    ensures AffectedRoots(t, affected) == set x | x in affected && t.ParentOf(x).None?
    ensures (forall x :: t.ParentOf(x).None? ==> x == root) && root in affected && t.ParentOf(root).None? ==>
      AffectedRoots(t, affected) == {root}
  {
  }

  /** Every existing node hangs below `root`: the parent of an existing node exists, and
      `root` is the only existing node without a parent. */
  ghost predicate RootedAt<Id>(t: Topology<Id>, root: Id) {
    t.Exists(root) && t.ParentOf(root).None? && UpwardClosed(t, t.present) &&
    forall x | x in t.present && t.ParentOf(x).None? :: x == root
  }

  /** Below a single root, a parent-closed affected set that holds the root and only
      ancestors of existing pending nodes has the root as its only affected root. */
  lemma SingleAffectedRoot<Id>(t: Topology<Id>, pending: seq<Id>, affected: set<Id>, root: Id)
    requires UpwardClosed(t, affected)
    requires forall x | x in pending :: t.Exists(x)
    requires forall x | x in affected :: Explained(t, pending, x)
    ensures root in affected && RootedAt(t, root) ==> AffectedRoots(t, affected) == {root}
  {
    if root in affected && RootedAt(t, root) {
      forall x | x in AffectedRoots(t, affected)
        ensures x == root
      {
        var i :| 0 <= i < |pending| && AncestorOrSelf(t, pending[i], x);
        assert pending[i] in pending;
        var n: nat :| AncestorAt(t, pending[i], n) == Some(x);
        ClosedHoldsAncestors(t, t.present, pending[i], n);
      }
    }
  }

  /** `offset_delta`: the offset that moves `previousOffset` to `newOffset`. */
  method OffsetDelta(newOffset: D.Offset, previousOffset: D.Offset) returns (delta: D.Offset)
    requires |newOffset| == |previousOffset|
    ensures |delta| == |newOffset| && Moved(previousOffset, delta) == newOffset
  {
    delta := D.ZeroOffset(|newOffset|);
    for dim := 0 to |newOffset|
      invariant |delta| == |newOffset|
      invariant forall k :: 0 <= k < dim ==> previousOffset[k] + delta[k] == newOffset[k]
    {
      delta := delta[dim := newOffset[dim] - previousOffset[dim]];
    }
  }

  // Eviction

  /** `b` keeps every entry of `a` it has. */
  ghost predicate SubMap<K, V>(a: map<K, V>, b: map<K, V>) {
    forall k | k in a :: k in b && a[k] == b[k]
  }

  /** `k` is a cached child of a node state dropped between `before` and `after`. */
  ghost predicate ChildOfDropped<Id>(before: map<Id, NodeState<Id>>, after: map<Id, NodeState<Id>>, k: Id) {
    exists p :: p in before && p !in after && k in before[p].cachedChildren
  }

  /** The cached children of every node state dropped between `before` and `nodes`, other
      than `except`, are gone from both caches. */
  ghost predicate DropsChildren<Id>(before: map<Id, NodeState<Id>>, nodes: map<Id, NodeState<Id>>,
                                   rects: map<Id, D.Box>, except: set<Id>) {
    forall p | p in before && p !in nodes && p !in except ::
      forall c | c in before[p].cachedChildren :: c !in nodes && c !in rects
  }

  /** Every entry dropped between `before` and `after`, other than `id`, was a cached child
      of a dropped node state. */
  ghost predicate DropsOnlyDescendants<Id, V>(nodesBefore: map<Id, NodeState<Id>>, nodesAfter: map<Id, NodeState<Id>>,
                                             before: map<Id, V>, after: map<Id, V>, id: Id) {
    forall k | k in before && k !in after :: k == id || ChildOfDropped(nodesBefore, nodesAfter, k)
  }

  // The cached subtree

  /** The nodes a pass from `id` with `fuel` levels of recursion can visit: none without
      fuel, else the node and what its cached children reach one level down. */
  ghost function Reach<Id>(nodes: map<Id, NodeState<Id>>, id: Id, fuel: nat): set<Id>
    decreases fuel, 0
  {
    if fuel == 0 then {}
    else {id} + (if id in nodes then ReachAll(nodes, nodes[id].cachedChildren, fuel - 1) else {})
  }

  /** What the nodes `ids` reach together. */
  ghost function ReachAll<Id>(nodes: map<Id, NodeState<Id>>, ids: seq<Id>, fuel: nat): set<Id>
    decreases fuel, 1, |ids|
  {
    if ids == [] then {} else ReachAll(nodes, ids[..|ids| - 1], fuel) + Reach(nodes, ids[|ids| - 1], fuel)
  }

  /** A node is reached by a list of nodes exactly when one of them reaches it. */
  lemma {:induction false} ReachAllMember<Id>(nodes: map<Id, NodeState<Id>>, ids: seq<Id>, fuel: nat, x: Id)
    ensures x in ReachAll(nodes, ids, fuel) <==> exists k :: 0 <= k < |ids| && x in Reach(nodes, ids[k], fuel)
    decreases |ids|
  {
    if ids != [] {
      var n := |ids| - 1;
      ReachAllMember(nodes, ids[..n], fuel, x);
      if x in ReachAll(nodes, ids[..n], fuel) {
        var k :| 0 <= k < n && x in Reach(nodes, ids[..n][k], fuel);
        assert ids[k] == ids[..n][k];
      }
      if exists k :: 0 <= k < |ids| && x in Reach(nodes, ids[k], fuel) {
        var k :| 0 <= k < |ids| && x in Reach(nodes, ids[k], fuel);
        if k < n {
          assert ids[..n][k] == ids[k];
        }
      }
    }
  }

  /** The cached subtree below `id` is a tree as far as `fuel` reaches: the node is not
      below itself, its children's subtrees do not meet, and each of them is a tree. */
  ghost predicate TreeBelow<Id>(nodes: map<Id, NodeState<Id>>, id: Id, fuel: nat)
    decreases fuel
  {
    fuel == 0 || id !in nodes ||
    var cs := nodes[id].cachedChildren;
    id !in ReachAll(nodes, cs, fuel - 1) &&
    (forall i, j :: 0 <= i < j < |cs| ==> Reach(nodes, cs[i], fuel - 1) !! Reach(nodes, cs[j], fuel - 1)) &&
    (forall i :: 0 <= i < |cs| ==> TreeBelow(nodes, cs[i], fuel - 1))
  }

  /** In a tree, the parent and the subtrees of the children before child `i` lie outside
      the subtree of child `i`. */
  lemma TreeChildApart<Id>(nodes: map<Id, NodeState<Id>>, id: Id, fuel: nat, i: nat)
    requires fuel > 0 && id in nodes && i < |nodes[id].cachedChildren| && TreeBelow(nodes, id, fuel)
    ensures var cs := nodes[id].cachedChildren;
      id !in Reach(nodes, cs[i], fuel - 1) && ReachAll(nodes, cs[..i], fuel - 1) !! Reach(nodes, cs[i], fuel - 1) &&
      TreeBelow(nodes, cs[i], fuel - 1)
  {
    var (cs, f) := (nodes[id].cachedChildren, fuel - 1);
    ReachAllMember(nodes, cs, f, id);
    var before := ReachAll(nodes, cs[..i], f);
    forall x | x in before
      ensures x !in Reach(nodes, cs[i], f)
    {
      ReachAllMember(nodes, cs[..i], f, x);
      var k :| 0 <= k < i && x in Reach(nodes, cs[..i][k], f);
      assert cs[..i][k] == cs[k];
    }
  }

  /** The children up to `i + 1` reach what those up to `i` reach and what child `i` does. */
  lemma ReachAllSnoc<Id>(nodes: map<Id, NodeState<Id>>, cs: seq<Id>, fuel: nat, i: nat)
    requires i < |cs|
    ensures ReachAll(nodes, cs[..i + 1], fuel) == ReachAll(nodes, cs[..i], fuel) + Reach(nodes, cs[i], fuel)
  {
    assert cs[..i + 1][..i] == cs[..i];
  }

  /** Every rect cached in `before` outside `s` is still cached, unchanged, in `after`. */
  ghost predicate KeepsOutside<Id>(before: map<Id, D.Box>, after: map<Id, D.Box>, s: set<Id>) {
    forall q | q in before && q !in s :: q in after && after[q] == before[q]
  }

  /** Every node of `s` has a rect in both caches, moved by `delta` with its size kept. */
  ghost predicate ShiftsInside<Id>(before: map<Id, D.Box>, after: map<Id, D.Box>, s: set<Id>, delta: D.Offset) {
    forall q | q in s ::
      q in before && q in after && |before[q].offset| == |delta| &&
      after[q] == D.Box(Moved(before[q].offset, delta), before[q].size)
  }

  /** `after` is `before` with `changes` replayed, each a genuine move by `delta` of a cached
      rect; the rects outside `s` stay, and when `whole` holds every rect of `s` moves. */
  ghost predicate ShiftedWithin<Id>(before: map<Id, D.Box>, after: map<Id, D.Box>, changes: seq<(Id, D.Box)>,
                                    delta: D.Offset, s: set<Id>, whole: bool) {
    Genuine(before, changes) && ShiftedBy(before, changes, delta) && after == Replay(before, changes) &&
    after.Keys == before.Keys && KeepsOutside(before, after, s) && (whole ==> ShiftsInside(before, after, s, delta))
  }

  /** Two passes over disjoint regions: what the first leaves alone and the second leaves
      alone stays, and the shifts of both regions add up. */
  lemma ShiftCompose<Id>(rects0: map<Id, D.Box>, rects1: map<Id, D.Box>, rects2: map<Id, D.Box>,
                         a: set<Id>, b: set<Id>, delta: D.Offset, tree: bool)
    requires rects1.Keys == rects0.Keys
    requires KeepsOutside(rects0, rects1, a) && KeepsOutside(rects1, rects2, b)
    requires tree ==> a !! b && ShiftsInside(rects0, rects1, a, delta) && ShiftsInside(rects1, rects2, b, delta)
    ensures KeepsOutside(rects0, rects2, a + b)
    ensures tree ==> ShiftsInside(rects0, rects2, a + b, delta)
  {
  }

  /** One step of the loop over a node's children: the reports so far followed by the
      child's reports keep and shift what the two did separately. */
  lemma ShiftChildStep<Id>(rects0: map<Id, D.Box>, before: map<Id, D.Box>, after: map<Id, D.Box>,
                           emitted: seq<(Id, D.Box)>, more: seq<(Id, D.Box)>, delta: D.Offset,
                           nodes: map<Id, NodeState<Id>>, id: Id, i: nat, fuel: nat, tree: bool)
    requires fuel > 0 && id in nodes && i < |nodes[id].cachedChildren| && (tree ==> TreeBelow(nodes, id, fuel))
    requires ShiftedWithin(rects0, before, emitted, delta, ReachAll(nodes, nodes[id].cachedChildren[..i], fuel - 1), tree)
    requires ShiftedWithin(before, after, more, delta, Reach(nodes, nodes[id].cachedChildren[i], fuel - 1),
      delta != D.ZeroOffset(|delta|) && TreeBelow(nodes, nodes[id].cachedChildren[i], fuel - 1))
    requires delta != D.ZeroOffset(|delta|)
    ensures ShiftedWithin(rects0, after, emitted + more, delta, ReachAll(nodes, nodes[id].cachedChildren[..i + 1], fuel - 1), tree)
  {
    var (cs, f) := (nodes[id].cachedChildren, fuel - 1);
    if tree {
      TreeChildApart(nodes, id, fuel, i);
    }
    ReplayAppend(rects0, emitted, more);
    ShiftedAppend(rects0, emitted, more, delta);
    ShiftCompose(rects0, before, after, ReachAll(nodes, cs[..i], f), Reach(nodes, cs[i], f), delta, tree);
    ReachAllSnoc(nodes, cs, f, i);
  }

  /** Only rects of `s` change: the others stay cached and unchanged, and every rect
      cached afterwards was cached before or belongs to `s`. */
  ghost predicate ChangedWithin<Id>(before: map<Id, D.Box>, after: map<Id, D.Box>, s: set<Id>) {
    KeepsOutside(before, after, s) && forall k | k in after :: k in before || k in s
  }

  /** The node's rect is `box` and its first `n` children sit at the offsets given for them. */
  ghost predicate PlacedSoFar<Id>(rects: map<Id, D.Box>, id: Id, box: D.Box, cs: seq<Id>, offsets: seq<D.Offset>, n: nat) {
    id in rects && rects[id] == box && n <= |cs| && n <= |offsets| &&
    forall j :: 0 <= j < n ==> cs[j] in rects && rects[cs[j]].offset == offsets[j]
  }

  /** In a tree, no child lies in the subtree of a later child. */
  lemma EarlierChildApart<Id>(nodes: map<Id, NodeState<Id>>, id: Id, fuel: nat, j: nat, i: nat)
    requires fuel > 0 && id in nodes && j < i < |nodes[id].cachedChildren| && TreeBelow(nodes, id, fuel)
    ensures nodes[id].cachedChildren[j] !in Reach(nodes, nodes[id].cachedChildren[i], fuel - 1)
  {
    var (cs, f) := (nodes[id].cachedChildren, fuel - 1);
    if f > 0 {
      assert cs[j] in Reach(nodes, cs[j], f);
      assert Reach(nodes, cs[j], f) !! Reach(nodes, cs[i], f);
    }
  }

  /** One step of the placement loop: the node and the children placed so far stay where
      they are while child `i`'s subtree is placed, and the changes add up. */
  lemma PlaceChildStep<Id>(rects0: map<Id, D.Box>, before: map<Id, D.Box>, after: map<Id, D.Box>,
                           emitted: seq<(Id, D.Box)>, more: seq<(Id, D.Box)>, box: D.Box, offsets: seq<D.Offset>,
                           nodes: map<Id, NodeState<Id>>, id: Id, i: nat, fuel: nat, tree: bool)
    requires fuel > 0 && id in nodes && i < |nodes[id].cachedChildren| == |offsets| && (tree ==> TreeBelow(nodes, id, fuel))
    requires Genuine(rects0, emitted) && before == Replay(rects0, emitted)
    requires Genuine(before, more) && after == Replay(before, more)
    requires ChangedWithin(rects0, before, {id} + ReachAll(nodes, nodes[id].cachedChildren[..i], fuel - 1))
    requires ChangedWithin(before, after, Reach(nodes, nodes[id].cachedChildren[i], fuel - 1))
    requires tree ==> PlacedSoFar(before, id, box, nodes[id].cachedChildren, offsets, i)
    requires tree ==> nodes[id].cachedChildren[i] in after && after[nodes[id].cachedChildren[i]].offset == offsets[i]
    ensures Genuine(rects0, emitted + more) && after == Replay(rects0, emitted + more)
    ensures ChangedWithin(rects0, after, {id} + ReachAll(nodes, nodes[id].cachedChildren[..i + 1], fuel - 1))
    ensures tree ==> PlacedSoFar(after, id, box, nodes[id].cachedChildren, offsets, i + 1)
  {
    var (cs, f) := (nodes[id].cachedChildren, fuel - 1);
    ReplayAppend(rects0, emitted, more);
    ReachAllSnoc(nodes, cs, f, i);
    if tree {
      TreeChildApart(nodes, id, fuel, i);
      forall j | 0 <= j < i
        ensures cs[j] in after && after[cs[j]].offset == offsets[j]
      {
        EarlierChildApart(nodes, id, fuel, j, i);
      }
    }
  }

  /** The cached subtree below `id` is a tree at every depth. */
  ghost predicate CachedTree<Id>(nodes: map<Id, NodeState<Id>>, id: Id) {
    forall fuel: nat :: TreeBelow(nodes, id, fuel)
  }

  // Measuring

  /** `cached_outer_size` of each child, or a panic when one has no node state. */
  function CachedSizes<Id>(nodes: map<Id, NodeState<Id>>, children: seq<Id>): (r: Outcome<seq<D.Size>>)
    ensures r.Returns? <==> forall c | c in children :: c in nodes
    ensures r.Returns? ==>
      (|r.value| == |children| && forall i :: 0 <= i < |children| ==> r.value[i] == nodes[children[i]].cachedOuterSize)
  {
    if forall c | c in children :: c in nodes
    then Returns(seq(|children|, i requires 0 <= i < |children| => nodes[children[i]].cachedOuterSize))
    else Panics
  }

  /** The node's cached size is what the algorithm measures from its cached children's
      cached sizes. */
  ghost predicate Measured<Id>(alg: Algorithm<Id>, nodes: map<Id, NodeState<Id>>, id: Id) {
    id in nodes &&
    var sizes := CachedSizes(nodes, nodes[id].cachedChildren);
    sizes.Returns? && nodes[id].cachedOuterSize == alg.measure(id, sizes.value)
  }

  /** Only the zero delta leaves an offset where it is. */
  lemma MovedFixesOnlyByZero(o: D.Offset, delta: D.Offset)
    requires |o| == |delta|
    ensures Moved(o, delta) == o ==> delta == D.ZeroOffset(|delta|)
  {
    if Moved(o, delta) == o {
      forall k | 0 <= k < |delta|
        ensures delta[k] == D.ZeroOffset(|delta|)[k]
      {
        assert Moved(o, delta)[k] == o[k];
      }
    }
  }

  // Refreshing

  /** The children the topology no longer has, in order. */
  function AbsentChildren<Id(!new)>(t: Topology<Id>, children: seq<Id>): (r: seq<Id>)
    ensures forall c :: c in r <==> c in children && !t.Exists(c)
  {
    if children == [] then []
    else (if t.Exists(children[0]) then [] else [children[0]]) + AbsentChildren(t, children[1..])
  }

  /** The nodes refreshed between `before` and `after` exist, and so do their children,
      which were refreshed too. */
  ghost predicate RefreshedClosed<Id>(t: Topology<Id>, before: set<Id>, after: set<Id>) {
    before <= after &&
    forall r | r in after && r !in before ::
      t.Exists(r) && forall c | c in t.ChildrenOf(r) :: t.Exists(c) && c in after
  }

  /** Every node refreshed that still has a state caches the children the topology gives. */
  ghost predicate CachesTopology<Id>(t: Topology<Id>, nodes: map<Id, NodeState<Id>>, refreshed: set<Id>) {
    forall r | r in refreshed && r in nodes :: nodes[r].cachedChildren == t.ChildrenOf(r)
  }

  /** Node states outside `touched` are the ones of `before` or dropped. */
  ghost predicate KeepsOthers<Id>(before: map<Id, NodeState<Id>>, nodes: map<Id, NodeState<Id>>, touched: set<Id>) {
    forall k | k in nodes && k !in touched :: k in before && nodes[k] == before[k]
  }

  // Collecting the affected nodes

  /** `x` is one of `pendingNodes` or an ancestor of one. */
  ghost predicate Explained<Id>(t: Topology<Id>, pendingNodes: seq<Id>, x: Id) {
    exists i :: 0 <= i < |pendingNodes| && AncestorOrSelf(t, pendingNodes[i], x)
  }

  /** One turn of `collect_affected_ancestors`: walks up from `pendingNodes[i]`, adding
      each node until the chain ends or reaches a node already collected. */
  method CollectChain<Id>(t: Topology<Id>, pendingNodes: seq<Id>, i: nat, collected: set<Id>) returns (affected: set<Id>)
    requires i < |pendingNodes| && UpwardClosed(t, collected)
    requires forall x | x in collected :: Explained(t, pendingNodes, x)
    ensures collected + {pendingNodes[i]} <= affected && UpwardClosed(t, affected)
    ensures forall x | x in affected :: Explained(t, pendingNodes, x)
  {
    affected := collected;
    var current := Some(pendingNodes[i]);
    ghost var depth: nat := 0;
    ghost var universe := collected + {pendingNodes[i]} + t.parents.Values;
    while current.Some?
      invariant current == AncestorAt(t, pendingNodes[i], depth)
      invariant current.Some? ==> current.value in universe
      invariant collected <= affected <= universe
      invariant depth > 0 ==> pendingNodes[i] in affected
      invariant forall x | x in affected ::
        t.ParentOf(x).None? || t.ParentOf(x).value in affected || t.ParentOf(x) == current
      invariant forall x | x in affected :: Explained(t, pendingNodes, x)
      decreases universe - affected
    {
      var nodeId := current.value;
      if nodeId in affected {
        break;
      }
      assert AncestorOrSelf(t, pendingNodes[i], nodeId) by {
        assert AncestorAt(t, pendingNodes[i], depth) == Some(nodeId);
      }
      affected := affected + {nodeId};
      current := t.ParentOf(nodeId);
      depth := depth + 1;
    }
  }

  /** `collect_affected_ancestors`: the pending nodes and all their ancestors, following
      each parent chain until it ends or meets a node already collected. */
  method CollectAffectedAncestors<Id(!new)>(t: Topology<Id>, pendingNodes: seq<Id>) returns (affected: set<Id>)
    ensures forall i :: 0 <= i < |pendingNodes| ==> pendingNodes[i] in affected
    ensures UpwardClosed(t, affected)
    ensures forall x | x in affected :: Explained(t, pendingNodes, x)
  {
    affected := {};
    for i := 0 to |pendingNodes|
      invariant forall j :: 0 <= j < i ==> pendingNodes[j] in affected
      invariant UpwardClosed(t, affected)
      invariant forall x | x in affected :: Explained(t, pendingNodes, x)
    {
      affected := CollectChain(t, pendingNodes, i, affected);
    }
  }

  /** `IncrementalLayouter`: the root, the per-node caches and the nodes marked for reflow. */
  class IncrementalLayouter<Id(==, !new)> {
    const root: Id
    /** `RANK`. */
    const rank: nat
    var nodes: map<Id, NodeState<Id>>
    var rects: map<Id, D.Box>
    var reflowPending: set<Id>

    ghost predicate Valid()
      reads this
    {
      RanksOffsets(rects, rank)
    }

    /** `IncrementalLayouter::new`: nothing cached, nothing pending. */
    constructor (root: Id, rank: nat)
      ensures this.root == root && this.rank == rank
      ensures nodes == map[] && rects == map[] && reflowPending == {}
      ensures Valid()
    {
      this.root := root;
      this.rank := rank;
      nodes := map[];
      rects := map[];
      reflowPending := {};
    }

    /** `mark_reflow_pending`: the node joins the next recompute. */
    method MarkReflowPending(id: Id)
      modifies this
      ensures reflowPending == old(reflowPending) + {id}
      ensures nodes == old(nodes) && rects == old(rects)
    {
      reflowPending := reflowPending + {id};
    }

    /** `rect`: the cached absolute rect of a node, if it has one. */
    function Rect(id: Id): (r: Option<D.Box>)
      reads this
      ensures r.Some? <==> id in rects
      ensures r.Some? ==> r.value == rects[id]
    {
      if id in rects then Some(rects[id]) else None
    }

    /** `update_rect`: stores the rect and reports it only when it differs from the cached
        one. */
    method UpdateRect(id: Id, nextRect: D.Box) returns (emitted: seq<(Id, D.Box)>)
      modifies this
      ensures rects == old(rects)[id := nextRect]
      ensures emitted == (if id in old(rects) && old(rects)[id] == nextRect then [] else [(id, nextRect)])
      ensures Genuine(old(rects), emitted) && rects == Replay(old(rects), emitted)
      ensures nodes == old(nodes) && reflowPending == old(reflowPending)
    {
      var hasChanged := id !in rects || rects[id] != nextRect;
      emitted := [];
      if hasChanged {
        rects := rects[id := nextRect];
        emitted := [(id, nextRect)];
      } else {
        assert rects == rects[id := nextRect];
      }
    }

    /** `evict_cached_subtree`: drops the node's state and rect and, through the children it
        cached, those of its whole cached subtree. */
    method EvictCachedSubtree(id: Id)
      modifies this
      ensures id !in nodes && id !in rects
      ensures SubMap(nodes, old(nodes)) && SubMap(rects, old(rects))
      ensures DropsChildren(old(nodes), nodes, rects, {})
      ensures DropsOnlyDescendants(old(nodes), nodes, old(nodes), nodes, id)
      ensures DropsOnlyDescendants(old(nodes), nodes, old(rects), rects, id)
      ensures reflowPending == old(reflowPending)
      decreases nodes.Keys
    {
      if id in nodes {
        var children := nodes[id].cachedChildren;
        nodes := nodes - {id};
        for i := 0 to |children|
          invariant id !in nodes && SubMap(nodes, old(nodes)) && SubMap(rects, old(rects))
          invariant forall j :: 0 <= j < i ==> children[j] !in nodes && children[j] !in rects
          invariant DropsChildren(old(nodes), nodes, rects, {id})
          invariant DropsOnlyDescendants(old(nodes), nodes, old(nodes), nodes, id)
          invariant DropsOnlyDescendants(old(nodes), nodes, old(rects), rects, id)
          invariant reflowPending == old(reflowPending)
        {
          assert nodes.Keys < old(nodes).Keys;
          EvictCachedSubtree(children[i]);
        }
      }
      rects := rects - {id};
    }

    /** `measure_subtree_recursive`: measures the walked children first, those affected or
        without a rect, then the node from its children's cached sizes. Clean children with
        a rect keep their cached size; the node must have a state. Recursion deeper than
        `fuel` is reported as a panic. */
    method MeasureSubtree(alg: Algorithm<Id>, id: Id, affected: set<Id>, fuel: nat) returns (panicked: bool)
      modifies this
      ensures id !in old(nodes) ==> panicked
      ensures rects == old(rects) && reflowPending == old(reflowPending)
      ensures !panicked ==> nodes.Keys == old(nodes).Keys
      ensures !panicked ==> forall k | k in nodes :: nodes[k].cachedChildren == old(nodes)[k].cachedChildren
      ensures !panicked ==>
        forall k | k in nodes && k != id && k !in affected && k in rects :: nodes[k] == old(nodes)[k]
      ensures !panicked && id in old(nodes) && id !in old(nodes)[id].cachedChildren ==> Measured(alg, nodes, id)
      decreases fuel
    {
      if fuel == 0 {
        return true;
      }
      var cachedChildren := if id in nodes then nodes[id].cachedChildren else [];
      for i := 0 to |cachedChildren|
        invariant nodes.Keys == old(nodes).Keys && rects == old(rects) && reflowPending == old(reflowPending)
        invariant forall k | k in nodes :: nodes[k].cachedChildren == old(nodes)[k].cachedChildren
        invariant forall k | k in nodes && k !in affected && k in rects :: nodes[k] == old(nodes)[k]
      {
        var child := cachedChildren[i];
        if child in affected || child !in rects {
          var p := MeasureSubtree(alg, child, affected, fuel - 1);
          if p {
            return true;
          }
        }
      }
      var sizes := CachedSizes(nodes, cachedChildren);
      if sizes.Panics? || id !in nodes {
        return true;
      }
      var size := alg.measure(id, sizes.value);
      ghost var before := nodes;
      nodes := nodes[id := nodes[id].(cachedOuterSize := size)];
      if id !in cachedChildren {
        assert forall j :: 0 <= j < |cachedChildren| ==> nodes[cachedChildren[j]] == before[cachedChildren[j]];
        assert CachedSizes(nodes, cachedChildren).value == sizes.value;
      }
      panicked := false;
    }

    /** `shift_subtree_recursive`: moves the cached rect of the node and of its cached
        subtree by `delta`, reporting each; a zero delta changes nothing, and a node
        without a rect panics. */
    method ShiftSubtree(id: Id, delta: D.Offset, fuel: nat) returns (panicked: bool, emitted: seq<(Id, D.Box)>)
      requires Valid() && |delta| == rank
      modifies this
      ensures Valid()
      ensures delta == D.ZeroOffset(rank) ==> !panicked && emitted == [] && rects == old(rects)
      ensures delta != D.ZeroOffset(rank) && (fuel == 0 || id !in old(rects)) ==> panicked
      ensures !panicked ==> nodes == old(nodes) && reflowPending == old(reflowPending)
      ensures !panicked ==> ShiftedWithin(old(rects), rects, emitted, delta, Reach(old(nodes), id, fuel),
        delta != D.ZeroOffset(rank) && TreeBelow(old(nodes), id, fuel))
      ensures !panicked && delta != D.ZeroOffset(rank) ==>
        id in old(rects) && emitted != [] &&
        emitted[0] == (id, D.Box(Moved(old(rects)[id].offset, delta), old(rects)[id].size))
      decreases fuel, 2
    {
      if delta == D.ZeroOffset(rank) {
        return false, [];
      }
      if fuel == 0 || id !in rects {
        return true, [];
      }
      var rect := rects[id];
      var shifted := D.Box(Moved(rect.offset, delta), rect.size);
      MovedFixesOnlyByZero(rect.offset, delta);
      emitted := UpdateRect(id, shifted);
      assert ShiftedBy(old(rects), emitted, delta);
      if id in nodes {
        ghost var updated := rects;
        ghost var tree := TreeBelow(nodes, id, fuel);
        var p, more := ShiftChildren(id, delta, fuel, tree);
        if p {
          return true, emitted;
        }
        ReplayAppend(old(rects), emitted, more);
        ShiftedAppend(old(rects), emitted, more, delta);
        ShiftCompose(old(rects), updated, rects, {id}, ReachAll(nodes, nodes[id].cachedChildren, fuel - 1), delta, tree);
        emitted := emitted + more;
      }
      panicked := false;
    }

    /** The loop of `shift_subtree_recursive` over the node's cached children: shifts each
        child's subtree in turn, stopping at the first panic. */
    method ShiftChildren(id: Id, delta: D.Offset, fuel: nat, ghost tree: bool) returns (panicked: bool, emitted: seq<(Id, D.Box)>)
      requires Valid() && |delta| == rank && delta != D.ZeroOffset(rank) && fuel > 0 && id in nodes
      requires tree ==> TreeBelow(nodes, id, fuel)
      modifies this
      ensures Valid()
      ensures !panicked ==> nodes == old(nodes) && reflowPending == old(reflowPending)
      ensures !panicked ==>
        ShiftedWithin(old(rects), rects, emitted, delta, ReachAll(old(nodes), old(nodes)[id].cachedChildren, fuel - 1), tree)
      decreases fuel, 1
    {
      var cachedChildren := nodes[id].cachedChildren;
      emitted := [];
      for i := 0 to |cachedChildren|
        invariant Valid() && nodes == old(nodes) && reflowPending == old(reflowPending)
        invariant ShiftedWithin(old(rects), rects, emitted, delta, ReachAll(nodes, cachedChildren[..i], fuel - 1), tree)
      {
        var p, more := ShiftChild(id, i, delta, fuel, tree, old(rects), emitted);
        if p {
          return true, emitted;
        }
        emitted := emitted + more;
      }
      assert cachedChildren[..|cachedChildren|] == cachedChildren;
      panicked := false;
    }

    /** One round of that loop: shifts the subtree of the node's child `i` after the first
        `i` children's subtrees were shifted from `rects0` by the reports `done`. */
    method ShiftChild(id: Id, i: nat, delta: D.Offset, fuel: nat, ghost tree: bool,
                      ghost rects0: map<Id, D.Box>, ghost done: seq<(Id, D.Box)>)
      returns (panicked: bool, more: seq<(Id, D.Box)>)
      requires Valid() && |delta| == rank && delta != D.ZeroOffset(rank) && fuel > 0
      requires id in nodes && i < |nodes[id].cachedChildren| && (tree ==> TreeBelow(nodes, id, fuel))
      requires ShiftedWithin(rects0, rects, done, delta, ReachAll(nodes, nodes[id].cachedChildren[..i], fuel - 1), tree)
      modifies this
      ensures Valid()
      ensures !panicked ==> nodes == old(nodes) && reflowPending == old(reflowPending)
      ensures !panicked ==>
        ShiftedWithin(rects0, rects, done + more, delta, ReachAll(nodes, nodes[id].cachedChildren[..i + 1], fuel - 1), tree)
      decreases fuel, 0
    {
      var p;
      p, more := ShiftSubtree(nodes[id].cachedChildren[i], delta, fuel - 1);
      if p {
        return true, more;
      }
      ShiftChildStep(rects0, old(rects), rects, done, more, delta, nodes, id, i, fuel, tree);
      panicked := false;
    }

    /** `place_subtree_recursive`: stores the node's rect at `absoluteOffset` with its cached
        size, places its children where the algorithm puts them, walking those affected or
        without a rect and shifting clean ones whose offset moved. Panics when the node or a
        child has no state, or when the algorithm returns another number of offsets than
        there are children. */
    method PlaceSubtree(alg: Algorithm<Id>, id: Id, absoluteOffset: D.Offset, affected: set<Id>, fuel: nat)
      returns (panicked: bool, emitted: seq<(Id, D.Box)>)
      requires Valid() && |absoluteOffset| == rank && PlacesRanked(alg, rank)
      modifies this
      ensures Valid()
      ensures id !in old(nodes) ==> panicked
      ensures !panicked ==> nodes == old(nodes) && reflowPending == old(reflowPending)
      ensures !panicked ==> Genuine(old(rects), emitted) && rects == Replay(old(rects), emitted)
      ensures !panicked ==> old(rects).Keys <= rects.Keys && forall k | k in rects :: k in old(rects) || k in nodes
      ensures !panicked ==> id in rects && ChangedWithin(old(rects), rects, Reach(old(nodes), id, fuel))
      ensures !panicked && id in old(nodes) && old(nodes)[id].cachedChildren != [] ==>
        var sizes := CachedSizes(old(nodes), old(nodes)[id].cachedChildren);
        sizes.Returns? &&
        |alg.placeChildren(id, absoluteOffset, sizes.value)| == |old(nodes)[id].cachedChildren|
      ensures !panicked && TreeBelow(old(nodes), id, fuel) ==>
        id in old(nodes) && rects[id] == D.Box(absoluteOffset, old(nodes)[id].cachedOuterSize)
      ensures !panicked && TreeBelow(old(nodes), id, fuel) && id in old(nodes) && old(nodes)[id].cachedChildren != [] ==>
        var (cs, sizes) := (old(nodes)[id].cachedChildren, CachedSizes(old(nodes), old(nodes)[id].cachedChildren));
        sizes.Returns? && forall i :: 0 <= i < |cs| ==>
          cs[i] in rects && rects[cs[i]].offset == alg.placeChildren(id, absoluteOffset, sizes.value)[i]
      decreases fuel, 1
    {
      if fuel == 0 || id !in nodes {
        return true, [];
      }
      var outerSize := nodes[id].cachedOuterSize;
      emitted := UpdateRect(id, D.Box(absoluteOffset, outerSize));
      var cachedChildren := nodes[id].cachedChildren;
      assert Reach(nodes, id, fuel) == {id} + ReachAll(nodes, cachedChildren, fuel - 1);
      if cachedChildren == [] {
        return false, emitted;
      }
      var sizes := CachedSizes(nodes, cachedChildren);
      if sizes.Panics? {
        return true, emitted;
      }
      var childOffsets := alg.placeChildren(id, absoluteOffset, sizes.value);
      if |childOffsets| != |cachedChildren| {
        return true, emitted;
      }
      ghost var tree := TreeBelow(nodes, id, fuel);
      for i := 0 to |cachedChildren|
        invariant Valid() && nodes == old(nodes) && reflowPending == old(reflowPending)
        invariant Genuine(old(rects), emitted) && rects == Replay(old(rects), emitted)
        invariant old(rects).Keys <= rects.Keys && forall k | k in rects :: k in old(rects) || k in nodes
        invariant id in rects
        invariant ChangedWithin(old(rects), rects, {id} + ReachAll(nodes, cachedChildren[..i], fuel - 1))
        invariant tree ==> PlacedSoFar(rects, id, D.Box(absoluteOffset, outerSize), cachedChildren, childOffsets, i)
      {
        ghost var before := rects;
        var p, more := PlaceChild(alg, id, i, childOffsets[i], affected, fuel, tree);
        if p {
          return true, emitted;
        }
        PlaceChildStep(old(rects), before, rects, emitted, more, D.Box(absoluteOffset, outerSize), childOffsets,
                       nodes, id, i, fuel, tree);
        emitted := emitted + more;
      }
      assert cachedChildren[..|cachedChildren|] == cachedChildren;
      panicked := false;
    }

    /** One round of the placement loop: walks child `i` when it is affected or has no rect,
        and otherwise shifts its cached subtree when its offset moved. */
    method PlaceChild(alg: Algorithm<Id>, id: Id, i: nat, childOffset: D.Offset, affected: set<Id>, fuel: nat, ghost tree: bool)
      returns (panicked: bool, more: seq<(Id, D.Box)>)
      requires Valid() && |childOffset| == rank && PlacesRanked(alg, rank) && fuel > 0
      requires id in nodes && i < |nodes[id].cachedChildren| && (tree ==> TreeBelow(nodes, id, fuel))
      modifies this
      ensures Valid()
      ensures !panicked ==> nodes == old(nodes) && reflowPending == old(reflowPending)
      ensures !panicked ==> Genuine(old(rects), more) && rects == Replay(old(rects), more)
      ensures !panicked ==> old(rects).Keys <= rects.Keys && forall k | k in rects :: k in old(rects) || k in nodes
      ensures !panicked ==> ChangedWithin(old(rects), rects, Reach(nodes, nodes[id].cachedChildren[i], fuel - 1))
      ensures !panicked && tree ==>
        nodes[id].cachedChildren[i] in rects && rects[nodes[id].cachedChildren[i]].offset == childOffset
      decreases fuel, 0
    {
      var child := nodes[id].cachedChildren[i];
      if tree {
        TreeChildApart(nodes, id, fuel, i);
      }
      more := [];
      if child in affected || child !in rects {
        var p;
        p, more := PlaceSubtree(alg, child, childOffset, affected, fuel - 1);
        if p {
          return true, more;
        }
      } else if rects[child].offset != childOffset {
        var delta := OffsetDelta(childOffset, rects[child].offset);
        var p;
        p, more := ShiftSubtree(child, delta, fuel - 1);
        if p {
          return true, more;
        }
        ShiftKeepsSizes(old(rects), more, delta);
      }
      panicked := false;
    }

    /** Evicts the cached subtrees of `ids`, one after the other. */
    method EvictAll(ids: seq<Id>)
      requires Valid()
      modifies this
      ensures Valid() && SubMap(nodes, old(nodes)) && SubMap(rects, old(rects))
      ensures reflowPending == old(reflowPending)
      ensures forall x | x in ids :: x !in nodes && x !in rects
    {
      for i := 0 to |ids|
        invariant Valid() && SubMap(nodes, old(nodes)) && SubMap(rects, old(rects))
        invariant reflowPending == old(reflowPending)
        invariant forall j :: 0 <= j < i ==> ids[j] !in nodes && ids[j] !in rects
      {
        EvictCachedSubtree(ids[i]);
      }
    }

    /** `refresh_children_subtree`: once per node, evicts the cached children the topology
        no longer has, caches the topology's children and refreshes them in turn; a child
        the topology lists but does not have panics. */
    method RefreshChildrenSubtree(t: Topology<Id>, id: Id, refreshed: set<Id>) returns (panicked: bool, after: set<Id>)
      requires Valid() && t.Exists(id)
      modifies this
      ensures Valid()
      ensures !panicked ==> id in after && RefreshedClosed(t, refreshed, after)
      ensures !panicked ==> CachesTopology(t, nodes, after - refreshed)
      ensures !panicked ==> KeepsOthers(old(nodes), nodes, after - refreshed)
      ensures !panicked ==> SubMap(rects, old(rects)) && reflowPending == old(reflowPending)
      ensures !panicked && id !in refreshed && id in old(nodes) ==>
        forall c | c in old(nodes)[id].cachedChildren && !t.Exists(c) :: c !in nodes && c !in rects
      decreases t.present - refreshed, 0
    {
      if id in refreshed {
        return false, refreshed;
      }
      after := refreshed + {id};
      var currentChildren := t.ChildrenOf(id);
      var removed := if id in nodes then AbsentChildren(t, nodes[id].cachedChildren) else [];
      EvictAll(removed);
      if id in nodes {
        nodes := nodes[id := nodes[id].(cachedChildren := currentChildren)];
      } else {
        nodes := nodes[id := NodeState(D.EmptySize(rank), currentChildren)];
      }
      panicked, after := RefreshChildren(t, currentChildren, after);
    }

    /** The loop of `refresh_children_subtree` over a node's children: each must exist in
        the topology and is refreshed in turn. */
    method RefreshChildren(t: Topology<Id>, children: seq<Id>, refreshed: set<Id>) returns (panicked: bool, after: set<Id>)
      requires Valid()
      modifies this
      ensures Valid()
      ensures !panicked ==> RefreshedClosed(t, refreshed, after) && forall c | c in children :: t.Exists(c) && c in after
      ensures !panicked ==> CachesTopology(t, nodes, after - refreshed)
      ensures !panicked ==> KeepsOthers(old(nodes), nodes, after - refreshed)
      ensures !panicked ==> SubMap(rects, old(rects)) && reflowPending == old(reflowPending)
      decreases t.present - refreshed, 1
    {
      after := refreshed;
      for i := 0 to |children|
        invariant Valid() && SubMap(rects, old(rects)) && reflowPending == old(reflowPending)
        invariant RefreshedClosed(t, refreshed, after)
        invariant forall j :: 0 <= j < i ==> t.Exists(children[j]) && children[j] in after
        invariant CachesTopology(t, nodes, after - refreshed)
        invariant KeepsOthers(old(nodes), nodes, after - refreshed)
      {
        var child := children[i];
        if !t.Exists(child) {
          return true, after;
        }
        var p;
        p, after := RefreshChildrenSubtree(t, child, after);
        if p {
          return true, after;
        }
      }
      panicked := false;
    }

    /** `refresh_pending_subtrees`: drains the pending nodes, in no particular order;
        evicts those the topology no longer has and refreshes the subtrees of the others,
        which become the pending roots. */
    method RefreshPendingSubtrees(t: Topology<Id>) returns (panicked: bool, pendingRoots: seq<Id>, ghost refreshed: set<Id>)
      requires Valid()
      modifies this
      ensures Valid()
      ensures old(reflowPending) == {} ==>
        !panicked && pendingRoots == [] && nodes == old(nodes) && rects == old(rects)
      ensures !panicked ==> reflowPending == {}
      ensures !panicked ==> forall x :: x in pendingRoots <==> x in old(reflowPending) && t.Exists(x)
      ensures !panicked ==> forall x | x in old(reflowPending) && !t.Exists(x) :: x !in nodes && x !in rects
      ensures !panicked ==> RefreshedClosed(t, {}, refreshed) && (forall x | x in pendingRoots :: x in refreshed)
      ensures !panicked ==> CachesTopology(t, nodes, refreshed) && KeepsOthers(old(nodes), nodes, refreshed)
      ensures !panicked ==> SubMap(rects, old(rects))
    {
      var pendingNodes := reflowPending;
      reflowPending := {};
      pendingRoots := [];
      var visited: set<Id> := {};
      var remaining := pendingNodes;
      while remaining != {}
        invariant Valid() && reflowPending == {} && remaining <= pendingNodes
        invariant forall x :: x in pendingRoots <==> x in pendingNodes - remaining && t.Exists(x)
        invariant forall x | x in pendingNodes - remaining && !t.Exists(x) :: x !in nodes && x !in rects
        invariant RefreshedClosed(t, {}, visited) && (forall x | x in pendingRoots :: x in visited)
        invariant CachesTopology(t, nodes, visited) && KeepsOthers(old(nodes), nodes, visited)
        invariant SubMap(rects, old(rects))
        invariant pendingNodes == {} ==> pendingRoots == [] && nodes == old(nodes) && rects == old(rects)
        decreases remaining
      {
        var pendingId :| pendingId in remaining;
        remaining := remaining - {pendingId};
        if !t.Exists(pendingId) {
          EvictCachedSubtree(pendingId);
          continue;
        }
        var p;
        p, visited := RefreshChildrenSubtree(t, pendingId, visited);
        if p {
          return true, pendingRoots, visited;
        }
        pendingRoots := pendingRoots + [pendingId];
      }
      refreshed := visited;
      panicked := false;
    }

    /** The layout pass of `recompute`: measures and places the region below each top
        node of `affected`, in no particular order; a top node is placed at
        `absoluteOffset` when it is the root or has no rect yet, else where its rect is. */
    method LayoutAffected(t: Topology<Id>, alg: Algorithm<Id>, absoluteOffset: D.Offset, affected: set<Id>,
                          ghost pendingRoots: seq<Id>)
      returns (panicked: bool, changed: seq<(Id, D.Box)>)
      requires Valid() && |absoluteOffset| == rank && PlacesRanked(alg, rank)
      requires UpwardClosed(t, affected) && forall x | x in pendingRoots :: t.Exists(x)
      requires forall x | x in affected :: Explained(t, pendingRoots, x)
      modifies this
      ensures Valid()
      ensures affected == {} ==> !panicked && changed == [] && nodes == old(nodes) && rects == old(rects)
      ensures !panicked ==> reflowPending == old(reflowPending) && nodes.Keys == old(nodes).Keys
      ensures !panicked ==> Genuine(old(rects), changed) && rects == Replay(old(rects), changed)
      ensures !panicked ==> forall x | x in rects && x !in nodes :: x in old(rects)
      ensures !panicked && root in affected && RootedAt(t, root) && CachedTree(nodes, root) ==>
        root in rects && root in nodes && rects[root] == D.Box(absoluteOffset, nodes[root].cachedOuterSize)
    {
      changed := [];
      var remaining := AffectedRoots(t, affected);
      var fuel := |nodes| + |rects| + 1;
      SingleAffectedRoot(t, pendingRoots, affected, root);
      ghost var single := root in affected && RootedAt(t, root);
      while remaining != {}
        invariant Valid() && reflowPending == old(reflowPending) && nodes.Keys == old(nodes).Keys
        invariant Genuine(old(rects), changed) && rects == Replay(old(rects), changed)
        invariant forall x | x in rects && x !in nodes :: x in old(rects)
        invariant affected == {} ==> changed == [] && nodes == old(nodes) && rects == old(rects)
        invariant single ==> remaining == {root} || remaining == {}
        invariant single && remaining == {} && CachedTree(nodes, root) ==>
          root in rects && root in nodes && rects[root] == D.Box(absoluteOffset, nodes[root].cachedOuterSize)
        decreases remaining
      {
        var affectedRoot :| affectedRoot in remaining;
        remaining := remaining - {affectedRoot};
        var rootOffset := if affectedRoot == root then absoluteOffset
          else if affectedRoot in rects then rects[affectedRoot].offset else absoluteOffset;
        var measurePanicked := MeasureSubtree(alg, affectedRoot, affected, fuel);
        if measurePanicked {
          return true, changed;
        }
        var placePanicked, more := PlaceSubtree(alg, affectedRoot, rootOffset, affected, fuel);
        if placePanicked {
          return true, changed;
        }
        if single && CachedTree(nodes, root) {
          assert TreeBelow(nodes, root, fuel);
        }
        ReplayAppend(old(rects), changed, more);
        changed := changed + more;
      }
      panicked := false;
    }

    /** `recompute`: panics without the root in the topology; marks the root pending when
        its cached offset differs from `absoluteOffset`; refreshes the pending subtrees,
        collects the pending roots and their ancestors and measures and places each
        affected region from its top node, in no particular order. The changed rects are
        reported as they are written: replayed onto the cache left after eviction they give
        the new cache, and each differs from the rect it replaces. */
    method Recompute(t: Topology<Id>, alg: Algorithm<Id>, absoluteOffset: D.Offset)
      returns (panicked: bool, changed: seq<(Id, D.Box)>, ghost evicted: map<Id, D.Box>)
      requires Valid() && |absoluteOffset| == rank && PlacesRanked(alg, rank)
      modifies this
      ensures Valid()
      ensures !t.Exists(root) ==>
        panicked && nodes == old(nodes) && rects == old(rects) && reflowPending == old(reflowPending)
      ensures t.Exists(root) && old(reflowPending) == {} && root in old(rects) && old(rects)[root].offset == absoluteOffset ==>
        !panicked && changed == [] && nodes == old(nodes) && rects == old(rects) && reflowPending == {}
      ensures !panicked ==> reflowPending == {}
      ensures !panicked ==> SubMap(evicted, old(rects)) && Genuine(evicted, changed) && rects == Replay(evicted, changed)
      ensures !panicked ==> forall x | x in old(reflowPending) && !t.Exists(x) :: x !in nodes && x !in rects
      ensures !panicked ==> forall x | !t.Exists(x) && x !in old(nodes) && x !in old(rects) :: x !in nodes && x !in rects
      ensures (!panicked && (root !in old(rects) || old(rects)[root].offset != absoluteOffset) &&
               RootedAt(t, root) && CachedTree(nodes, root)) ==>
        root in rects && root in nodes && rects[root] == D.Box(absoluteOffset, nodes[root].cachedOuterSize)
    {
      changed := [];
      evicted := rects;
      if !t.Exists(root) {
        return true, changed, evicted;
      }
      var rootMoved := root !in rects || rects[root].offset != absoluteOffset;
      if rootMoved {
        MarkReflowPending(root);
      }
      var p, pendingRoots, refreshed := RefreshPendingSubtrees(t);
      if p {
        return true, changed, evicted;
      }
      evicted := rects;
      var affected := CollectAffectedAncestors(t, pendingRoots);
      if rootMoved {
        assert root in pendingRoots;
      }
      panicked, changed := LayoutAffected(t, alg, absoluteOffset, affected, pendingRoots);
    }
  }
}
