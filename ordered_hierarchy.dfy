/** The desktop's ordered hierarchy (desktop/src/aggregates/ordered_hierarchy.rs): one map
    from id to node state, where each node knows its parent and the ordered list of its
    nested ids. Removing a node removes its whole nested tree.

    The hierarchy itself checks only that a nested node has no parent yet; it does not
    reject cycles. Facts about removal are stated for hierarchies whose links agree both
    ways (`Linked`) and whose parent chains end (`Ranked` by some depth function). */
module OrderedHierarchy {
  import opened Wrappers

  type Id = int

  /** `NodeState`. */
  datatype Node = Node(parent: Option<Id>, nested: seq<Id>)

  type Nodes = map<Id, Node>

  datatype HierarchyError =
    | AlreadyHasParent(id: Id)
    | IndexOutOfBounds(index: nat, count: nat)
    | IdNotFound(id: Id)
    | NestedNotFound

  /** A hierarchy after an operation, and whether the operation succeeded. */
  datatype Done = Done(nodes: Nodes, result: Result<(), HierarchyError>)

  datatype DirectionBias = Begin | End

  /** `NodeState::default`. */
  const Root := Node(None, [])

  predicate Distinct(s: seq<Id>) {
    forall i, j :: 0 <= i < j < |s| ==> s[i] != s[j]
  }

  /** Every parent link has the matching nested entry and vice versa, and no node is
      nested twice in the same list. */
  predicate Linked(h: Nodes) {
    ParentsList(h) && NestedPointBack(h) && ListsDistinct(h)
  }

  predicate ParentsList(h: Nodes) {
    forall x :: x in h && h[x].parent.Some? ==> h[x].parent.value in h && x in h[h[x].parent.value].nested
  }

  predicate NestedPointBack(h: Nodes) {
    forall p, c {:trigger c in h[p].nested} :: p in h && c in h[p].nested ==> c in h && h[c].parent == Some(p)
  }

  predicate ListsDistinct(h: Nodes) {
    forall p :: p in h ==> Distinct(h[p].nested)
  }

  /** Each parent lies strictly closer to the root than its nested nodes under `depth`;
      then no parent chain is a cycle. */
  predicate Ranked(h: Nodes, depth: Id -> nat) {
    forall x :: x in h && h[x].parent.Some? ==> depth(h[x].parent.value) < depth(x)
  }

  /** The node, or a default root for an unknown id (`entry(..).or_default()`). */
  function Entry(h: Nodes, id: Id): Node {
    if id in h then h[id] else Root
  }

  // Queries

  /** `parent`. */
  function Parent(h: Nodes, id: Id): (r: Option<Id>)
    ensures r.Some? <==> id in h && h[id].parent.Some?
    ensures r.Some? ==> r == h[id].parent
  {
    if id in h then h[id].parent else None
  }

  /** `exists`. */
  function Exists(h: Nodes, id: Id): bool {
    id in h
  }

  /** `get_nested`: empty for an unknown id. */
  function GetNested(h: Nodes, id: Id): (r: seq<Id>)
    ensures id in h ==> r == h[id].nested
    ensures id !in h ==> r == []
  {
    Entry(h, id).nested
  }

  /** `group`: the nested list of the parent, empty for a root. */
  function Group(h: Nodes, id: Id): seq<Id> {
    match Parent(h, id)
    case Some(p) => GetNested(h, p)
    case None => []
  }

  /** The first position of `id` in `s`. */
  function Position(s: seq<Id>, id: Id): (r: Option<nat>)
    ensures r.None? <==> id !in s
    ensures r.Some? ==> r.value < |s| && s[r.value] == id && id !in s[..r.value]
  {
    if s == [] then None
    else if s[0] == id then Some(0)
    else match Position(s[1..], id)
      case None => None
      case Some(i) =>
        assert s[..i + 1] == [s[0]] + s[1..][..i];
        Some(i + 1)
  }

  /** `Entry::index`: the position among the siblings, none for a root. */
  function Index(h: Nodes, id: Id): Option<nat> {
    match Parent(h, id)
    case Some(p) => Position(GetNested(h, p), id)
    case None => None
  }

  /** `Entry::has_nested`. */
  function HasNested(h: Nodes, id: Id): bool {
    GetNested(h, id) != []
  }

  /** `slice::get`. */
  function At(s: seq<Id>, i: int): (r: Option<Id>)
    ensures r.Some? <==> 0 <= i < |s|
    ensures r.Some? ==> r.value == s[i]
  {
    if 0 <= i < |s| then Some(s[i]) else None
  }

  /** `Entry::neighbor`: the first has only a next, the last only a previous, the others
      the one the bias prefers. */
  function Neighbor(h: Nodes, id: Id, bias: DirectionBias): Option<Id> {
    match Index(h, id)
    case None => None
    case Some(i) =>
      var group := Group(h, id);
      if i == 0 then At(group, 1)
      else if i == |group| - 1 then At(group, i - 1)
      else match bias
        case Begin => At(group, i - 1)
        case End => At(group, i + 1)
  }

  // Insertion

  /** `add`: a node that already has a parent is rejected; otherwise it gets the parent
      and is appended to the parent's nested list. Missing nodes are created. */
  function AfterAdd(h: Nodes, parent: Id, nested: Id): Done {
    var n := Entry(h, nested);
    if n.parent.Some? then Done(h, Err(AlreadyHasParent(nested)))
    else
      var h1 := h[nested := n.(parent := Some(parent))];
      var p := Entry(h1, parent);
      Done(h1[parent := p.(nested := p.nested + [nested])], Ok(()))
  }

  /** `add_nested`: adds in order and stops at the first failure. */
  function AfterAddNested(h: Nodes, parent: Id, nested: seq<Id>): Done
    decreases |nested|
  {
    if nested == [] then Done(h, Ok(()))
    else
      var d := AfterAdd(h, parent, nested[0]);
      if d.result.Err? then d else AfterAddNested(d.nodes, parent, nested[1..])
  }

  /** `insert_at`: the parent's node is created first, then the index is checked against
      the parent's nested count, then the nested node's parent. */
  function AfterInsertAt(h: Nodes, parent: Id, index: nat, nested: Id): Done {
    var h1 := h[parent := Entry(h, parent)];
    var count := |h1[parent].nested|;
    if index > count then Done(h1, Err(IndexOutOfBounds(index, count)))
    else
      var n := Entry(h1, nested);
      if n.parent.Some? then Done(h1, Err(AlreadyHasParent(nested)))
      else
        var h2 := h1[nested := n.(parent := Some(parent))];
        var p := h2[parent];
        Done(h2[parent := p.(nested := p.nested[..index] + [nested] + p.nested[index..])], Ok(()))
  }

  // Removal

  /** `remove_nested_with_expected_parent`: removes the node and then, in order, the trees
      of its nested nodes; a node that is already gone panics. */
  function RemoveTree(g: Nodes, id: Id): (r: Outcome<Nodes>)
    ensures r.Returns? ==> r.value.Keys < g.Keys && forall x :: x in r.value ==> r.value[x] == g[x]
    decreases g.Keys, 0
  {
    if id !in g then Panics
    else RemoveTrees(g - {id}, g[id].nested)
  }

  /** The trees of `ids`, removed one after the other. */
  function RemoveTrees(g: Nodes, ids: seq<Id>): (r: Outcome<Nodes>)
    ensures r.Returns? ==> r.value.Keys <= g.Keys && forall x :: x in r.value ==> r.value[x] == g[x]
    decreases g.Keys, |ids|
  {
    if ids == [] then Returns(g)
    else match RemoveTree(g, ids[0])
      case Panics => Panics
      case Returns(g1) => RemoveTrees(g1, ids[1..])
  }

  /** `remove`: an unknown id is an error; the id is unlinked from its parent (whose
      absence panics, and whose list must hold it), then its tree is removed. */
  function AfterRemove(h: Nodes, id: Id): Outcome<Done> {
    if id !in h then Returns(Done(h, Err(IdNotFound(id))))
    else match h[id].parent
      case None => OkOrPanic(RemoveTree(h, id))
      case Some(p) =>
        if p !in h then Panics
        else match Position(h[p].nested, id)
          case None => Returns(Done(h, Err(NestedNotFound)))
          case Some(i) =>
            var nested := h[p].nested;
            OkOrPanic(RemoveTree(h[p := h[p].(nested := nested[..i] + nested[i + 1..])], id))
  }

  function OkOrPanic(r: Outcome<Nodes>): Outcome<Done> {
    match r
    case Panics => Panics
    case Returns(g) => Returns(Done(g, Ok(())))
  }

  // The tree below a node

  /** `x` is `a` or lies below `a`: following parents from `x` reaches `a`. */
  predicate Below(h: Nodes, x: Id, a: Id, depth: Id -> nat)
    requires Ranked(h, depth)
    decreases depth(x)
  {
    x == a || (x in h && h[x].parent.Some? && Below(h, h[x].parent.value, a, depth))
  }

  /** The nodes of the tree rooted at `a`. */
  ghost function Tree(h: Nodes, a: Id, depth: Id -> nat): set<Id>
    requires Ranked(h, depth)
  {
    set x | x in h && Below(h, x, a, depth)
  }

  /** The nodes of the trees rooted at `ids`. */
  ghost function Trees(h: Nodes, ids: seq<Id>, depth: Id -> nat): set<Id>
    requires Ranked(h, depth)
  {
    set x | x in h && exists c :: c in ids && Below(h, x, c, depth)
  }

  /** A node lies no closer to the root than the nodes above it. */
  lemma {:induction false} BelowDepth(h: Nodes, x: Id, a: Id, depth: Id -> nat)
    requires Ranked(h, depth) && Below(h, x, a, depth)
    ensures depth(a) <= depth(x)
    ensures x != a ==> depth(a) < depth(x)
    decreases depth(x)
  {
    if x != a {
      BelowDepth(h, h[x].parent.value, a, depth);
    }
  }

  /** Below a nested node is below its parent. */
  lemma {:induction false} BelowChild(h: Nodes, x: Id, c: Id, a: Id, depth: Id -> nat)
    requires Ranked(h, depth) && c in h && h[c].parent == Some(a) && Below(h, x, c, depth)
    ensures Below(h, x, a, depth)
    decreases depth(x)
  {
    if x != c {
      BelowChild(h, h[x].parent.value, c, a, depth);
    }
  }

  /** Strictly below `a` is below one of the nodes whose parent is `a`. */
  lemma {:induction false} BelowSomeChild(h: Nodes, x: Id, a: Id, depth: Id -> nat) returns (c: Id)
    requires Ranked(h, depth) && Below(h, x, a, depth) && x != a
    ensures c in h && h[c].parent == Some(a) && Below(h, x, c, depth)
    decreases depth(x)
  {
    var p := h[x].parent.value;
    if p == a {
      c := x;
    } else {
      c := BelowSomeChild(h, p, a, depth);
    }
  }

  /** The trees of two different nested nodes of one parent are disjoint. */
  lemma {:induction false} SiblingTreesDisjoint(h: Nodes, x: Id, c1: Id, c2: Id, a: Id, depth: Id -> nat)
    requires Ranked(h, depth) && c1 in h && c2 in h && h[c1].parent == Some(a) && h[c2].parent == Some(a) && c1 != c2
    requires Below(h, x, c1, depth)
    ensures !Below(h, x, c2, depth)
    decreases depth(x)
  {
    if Below(h, x, c2, depth) {
      if x == c1 {
        BelowDepth(h, h[c1].parent.value, c2, depth);
      } else if x == c2 {
        BelowDepth(h, h[c2].parent.value, c1, depth);
      } else {
        SiblingTreesDisjoint(h, h[x].parent.value, c1, c2, a, depth);
      }
    }
  }

  /** A tree is its root and the trees of the root's nested nodes, which do not contain
      the root. */
  lemma TreeSplit(h: Nodes, a: Id, depth: Id -> nat)
    requires Linked(h) && Ranked(h, depth) && a in h
    ensures Tree(h, a, depth) == {a} + Trees(h, h[a].nested, depth)
    ensures a !in Trees(h, h[a].nested, depth)
  {
    forall x | x in Tree(h, a, depth) && x != a
      ensures x in Trees(h, h[a].nested, depth)
    {
      var c := BelowSomeChild(h, x, a, depth);
      assert c in h[a].nested;
    }
    forall x | x in Trees(h, h[a].nested, depth)
      ensures x in Tree(h, a, depth) && x != a
    {
      var c :| c in h[a].nested && Below(h, x, c, depth);
      BelowChild(h, x, c, a, depth);
      BelowDepth(h, x, c, depth);
    }
  }

  /** Removing a tree from a map that holds it, unchanged, removes exactly its nodes. */
  lemma {:induction false} RemoveTreeRemovesTree(h: Nodes, g: Nodes, a: Id, depth: Id -> nat)
    requires Linked(h) && Ranked(h, depth) && a in h
    requires Tree(h, a, depth) <= g.Keys && forall x :: x in Tree(h, a, depth) ==> g[x] == h[x]
    ensures RemoveTree(g, a) == Returns(g - Tree(h, a, depth))
    decreases g.Keys, 0
  {
    assert Below(h, a, a, depth);
    TreeSplit(h, a, depth);
    var cs := h[a].nested;
    var g1 := g - {a};
    forall c | c in cs
      ensures c in h && h[c].parent == Some(a)
    {
    }
    RemoveTreesRemovesTrees(h, g1, cs, a, depth);
    assert g1 - Trees(h, cs, depth) == g - Tree(h, a, depth);
  }

  /** Removing the trees of nested nodes of one parent, in order, removes exactly their
      nodes. */
  lemma {:induction false} RemoveTreesRemovesTrees(h: Nodes, g: Nodes, cs: seq<Id>, a: Id, depth: Id -> nat)
    requires Linked(h) && Ranked(h, depth)
    requires Distinct(cs) && forall c :: c in cs ==> c in h && h[c].parent == Some(a)
    requires Trees(h, cs, depth) <= g.Keys && forall x :: x in Trees(h, cs, depth) ==> g[x] == h[x]
    ensures RemoveTrees(g, cs) == Returns(g - Trees(h, cs, depth))
    decreases g.Keys, |cs|
  {
    if cs == [] {
      assert Trees(h, cs, depth) == {};
      assert g - {} == g;
    } else {
      var c := cs[0];
      var rest := cs[1..];
      TreesCons(h, cs, depth);
      RemoveTreeRemovesTree(h, g, c, depth);
      var g1 := g - Tree(h, c, depth);
      assert c in g && c !in g1 by { assert Below(h, c, c, depth); }
      RestOutsideFirst(h, cs, a, depth);
      RemoveTreesRemovesTrees(h, g1, rest, a, depth);
      assert g1 - Trees(h, rest, depth) == g - Trees(h, cs, depth);
    }
  }

  /** The later siblings of a list have their own trees, apart from the first one's. */
  lemma RestOutsideFirst(h: Nodes, cs: seq<Id>, a: Id, depth: Id -> nat)
    requires Ranked(h, depth) && cs != []
    requires Distinct(cs) && forall c :: c in cs ==> c in h && h[c].parent == Some(a)
    ensures Distinct(cs[1..]) && forall c :: c in cs[1..] ==> c in h && h[c].parent == Some(a)
    ensures Trees(h, cs[1..], depth) !! Tree(h, cs[0], depth)
  {
    var rest := cs[1..];
    forall i, j | 0 <= i < j < |rest|
      ensures rest[i] != rest[j]
    {
      assert rest[i] == cs[i + 1] && rest[j] == cs[j + 1];
    }
    forall x | x in Trees(h, rest, depth)
      ensures x !in Tree(h, cs[0], depth)
    {
      var d :| d in rest && Below(h, x, d, depth);
      var k :| 0 <= k < |rest| && rest[k] == d;
      assert cs[k + 1] == d;
      SiblingTreesDisjoint(h, x, d, cs[0], a, depth);
    }
  }

  lemma TreesCons(h: Nodes, cs: seq<Id>, depth: Id -> nat)
    requires Ranked(h, depth) && cs != []
    ensures Trees(h, cs, depth) == Tree(h, cs[0], depth) + Trees(h, cs[1..], depth)
  {
    forall x | x in Trees(h, cs, depth)
      ensures x in Tree(h, cs[0], depth) || x in Trees(h, cs[1..], depth)
    {
      var c :| c in cs && Below(h, x, c, depth);
      if c != cs[0] {
        assert c in cs[1..];
      }
    }
  }

  // What removal does

  /** `id` taken out of its parent's nested list, if it has a parent. */
  function Unlink(h: Nodes, id: Id): Nodes {
    if id in h && h[id].parent.Some? && h[id].parent.value in h then
      var p := h[id].parent.value;
      match Position(h[p].nested, id)
      case None => h
      case Some(i) => h[p := h[p].(nested := h[p].nested[..i] + h[p].nested[i + 1..])]
    else h
  }

  lemma SliceOut(s: seq<Id>, i: nat, x: Id)
    requires i < |s| && Distinct(s)
    ensures x in s[..i] + s[i + 1..] <==> x in s && x != s[i]
    ensures Distinct(s[..i] + s[i + 1..])
  {
    var t := s[..i] + s[i + 1..];
    forall a, b | 0 <= a < b < |t|
      ensures t[a] != t[b]
    {
      var a' := if a < i then a else a + 1;
      var b' := if b < i then b else b + 1;
      assert t[a] == s[a'] && t[b] == s[b'];
    }
    if x in s && x != s[i] {
      var k :| 0 <= k < |s| && s[k] == x;
      if k < i { assert t[k] == x; } else { assert t[k - 1] == x; }
    }
  }

  /** On a linked hierarchy without cycles, removing a known id succeeds; what remains is
      the hierarchy without the tree below `id`, with `id` gone from its parent's list,
      which keeps its order. The links still agree, and the parent stays. */
  lemma {:induction false} RemoveProperties(h: Nodes, id: Id, depth: Id -> nat)
    requires Linked(h) && Ranked(h, depth)
    ensures id !in h ==> AfterRemove(h, id) == Returns(Done(h, Err(IdNotFound(id))))
    ensures id in h ==> AfterRemove(h, id) == Returns(Done(Unlink(h, id) - Tree(h, id, depth), Ok(())))
    ensures id in h ==> Linked(Unlink(h, id) - Tree(h, id, depth))
    ensures id in h && h[id].parent.Some? ==>
      var p := h[id].parent.value;
      var r := Unlink(h, id) - Tree(h, id, depth);
      p in r &&
      (exists i :: 0 <= i < |h[p].nested| && h[p].nested[i] == id &&
         r[p].nested == h[p].nested[..i] + h[p].nested[i + 1..])
  {
    if id in h {
      var t := Tree(h, id, depth);
      var u := Unlink(h, id);
      var r := u - t;
      assert Below(h, id, id, depth);
      // `u` differs from `h` only at the parent, which lies above the tree.
      forall x | x in t
        ensures x in u && u[x] == h[x]
      {
        if h[id].parent.Some? {
          var p := h[id].parent.value;
          BelowDepth(h, x, id, depth);
          assert x != p;
        }
      }
      RemoveTreeRemovesTree(h, u, id, depth);
      if h[id].parent.Some? {
        var p := h[id].parent.value;
        assert id in h[p].nested;
        var i := Position(h[p].nested, id).value;
        BelowDepthAbove(h, p, id, depth);
        assert p in r;
      }
      RemoveKeepsLinked(h, id, depth);
    }
  }

  /** The parent of a node lies outside the node's tree. */
  lemma BelowDepthAbove(h: Nodes, p: Id, id: Id, depth: Id -> nat)
    requires Ranked(h, depth) && id in h && h[id].parent == Some(p)
    ensures p !in Tree(h, id, depth)
  {
    if p in h && Below(h, p, id, depth) {
      BelowDepth(h, p, id, depth);
    }
  }

  lemma RemoveKeepsLinked(h: Nodes, id: Id, depth: Id -> nat)
    requires Linked(h) && Ranked(h, depth) && id in h
    ensures Linked(Unlink(h, id) - Tree(h, id, depth))
  {
    var t := Tree(h, id, depth);
    var u := Unlink(h, id);
    var r := u - t;
    assert Below(h, id, id, depth);
    assert forall x :: x in r ==> r[x].parent == h[x].parent;
    // The nested list of any node left is its old one, or the parent's without `id`.
    forall q, c | q in r && c in r[q].nested
      ensures c in h[q].nested && c != id
    {
      if h[id].parent.Some? && q == h[id].parent.value {
        var i := Position(h[q].nested, id).value;
        SliceOut(h[q].nested, i, c);
      } else {
        assert c in h[q].nested;
        if c == id {
          assert false;
        }
      }
    }
    forall x | x in r && r[x].parent.Some?
      ensures r[x].parent.value in r && x in r[r[x].parent.value].nested
    {
      var q := h[x].parent.value;
      assert q in r;
      if h[id].parent.Some? && q == h[id].parent.value {
        var i := Position(h[q].nested, id).value;
        SliceOut(h[q].nested, i, x);
      }
    }
    forall q, c | q in r && c in r[q].nested
      ensures c in r && r[c].parent == Some(q)
    {
      assert c in h[q].nested && c != id;
    }
    forall q | q in r
      ensures Distinct(r[q].nested)
    {
      if h[id].parent.Some? && q == h[id].parent.value {
        var i := Position(h[q].nested, id).value;
        SliceOut(h[q].nested, i, id);
      }
    }
  }

  // What insertion does

  /** A parentless `nested` linked below `parent` at `index` of its list. */
  function Link(h: Nodes, parent: Id, nested: Id, index: nat): Nodes
    requires index <= |GetNested(h, parent)|
  {
    var s := GetNested(h, parent);
    var h1 := h[nested := Entry(h, nested).(parent := Some(parent))];
    h1[parent := Entry(h1, parent).(nested := s[..index] + [nested] + s[index..])]
  }

  /** A node without a parent is in no nested list. */
  lemma NotListed(h: Nodes, nested: Id)
    requires Linked(h) && Parent(h, nested).None?
    ensures forall q :: q in h ==> nested !in h[q].nested
  {
  }

  lemma InsertDistinct(s: seq<Id>, index: nat, x: Id)
    requires index <= |s| && Distinct(s) && x !in s
    ensures Distinct(s[..index] + [x] + s[index..])
    ensures forall c :: c in s[..index] + [x] + s[index..] <==> c in s || c == x
  {
    var t := s[..index] + [x] + s[index..];
    forall i, j | 0 <= i < j < |t|
      ensures t[i] != t[j]
    {
      if j < index { assert t[i] == s[i] && t[j] == s[j]; }
      else if j == index { assert t[i] == s[i]; }
      else if i < index { assert t[i] == s[i] && t[j] == s[j - 1]; }
      else if i == index { assert t[j] == s[j - 1]; }
      else { assert t[i] == s[i - 1] && t[j] == s[j - 1]; }
    }
    assert s == s[..index] + s[index..];
  }

  lemma LinkParentsList(h: Nodes, parent: Id, nested: Id, index: nat)
    requires Linked(h) && Parent(h, nested).None? && index <= |GetNested(h, parent)|
    ensures ParentsList(Link(h, parent, nested, index))
  {
    var s := GetNested(h, parent);
    var r := Link(h, parent, nested, index);
    InsertDistinct(s, index, nested);
    forall x | x in r && r[x].parent.Some?
      ensures r[x].parent.value in r && x in r[r[x].parent.value].nested
    {
      var q := r[x].parent.value;
      if x != nested && x != parent {
        assert h[x].parent == Some(q) && x in h[q].nested;
      } else if x == parent && x != nested {
        assert h[x].parent == Some(q) && x in h[q].nested;
      }
    }
  }

  lemma LinkNestedPointBack(h: Nodes, parent: Id, nested: Id, index: nat)
    requires Linked(h) && Parent(h, nested).None? && index <= |GetNested(h, parent)|
    ensures NestedPointBack(Link(h, parent, nested, index))
  {
    var s := GetNested(h, parent);
    var r := Link(h, parent, nested, index);
    InsertDistinct(s, index, nested);
    NotListed(h, nested);
    forall q, c | q in r && c in r[q].nested
      ensures c in r && r[c].parent == Some(q)
    {
      if q == parent {
        if c != nested {
          assert c in h[q].nested;
        }
      } else {
        assert c in h[q].nested;
      }
    }
  }

  lemma LinkListsDistinct(h: Nodes, parent: Id, nested: Id, index: nat)
    requires Linked(h) && Parent(h, nested).None? && index <= |GetNested(h, parent)|
    ensures ListsDistinct(Link(h, parent, nested, index))
  {
    NotListed(h, nested);
    InsertDistinct(GetNested(h, parent), index, nested);
  }

  /** Linking a parentless node into a list, at any position, keeps the links in
      agreement, keeps every other node, and makes the node a member of that list. */
  lemma LinkProperties(h: Nodes, parent: Id, nested: Id, index: nat)
    requires Linked(h) && Parent(h, nested).None? && index <= |GetNested(h, parent)|
    ensures var r := Link(h, parent, nested, index);
      Linked(r) && r.Keys == h.Keys + {parent, nested} &&
      Parent(r, nested) == Some(parent) &&
      (forall x :: x in h && x != nested ==> Parent(r, x) == Parent(h, x)) &&
      (forall x :: x in h && x != parent && x != nested ==> r[x] == h[x])
  {
    LinkParentsList(h, parent, nested, index);
    LinkNestedPointBack(h, parent, nested, index);
    LinkListsDistinct(h, parent, nested, index);
  }

  /** Adding succeeds exactly when the nested node has no parent yet; then it is linked
      to the parent at the end of the parent's list, nothing else changes, and the links
      still agree. A failed add changes nothing. */
  lemma AddProperties(h: Nodes, parent: Id, nested: Id)
    requires Linked(h)
    ensures var d := AfterAdd(h, parent, nested);
      (d.result.Ok? <==> Parent(h, nested).None?) &&
      (d.result.Err? ==> d.nodes == h && d.result.error == AlreadyHasParent(nested)) &&
      (d.result.Ok? ==>
        d.nodes.Keys == h.Keys + {parent, nested} &&
        Parent(d.nodes, nested) == Some(parent) &&
        GetNested(d.nodes, parent) == GetNested(h, parent) + [nested] &&
        (forall x :: x in h && x != nested ==> Parent(d.nodes, x) == Parent(h, x)) &&
        (forall x :: x in h && x != parent && x != nested ==> d.nodes[x] == h[x]) &&
        Linked(d.nodes))
  {
    var d := AfterAdd(h, parent, nested);
    if d.result.Ok? {
      var s := GetNested(h, parent);
      assert s[..|s|] + [nested] + s[|s|..] == s + [nested];
      assert d.nodes == Link(h, parent, nested, |s|);
      LinkProperties(h, parent, nested, |s|);
    }
  }

  /** Inserting succeeds exactly when the index is at most the parent's nested count and
      the nested node has no parent yet; then it sits at that index of the parent's list,
      and the links still agree. Whatever the outcome, the parent exists afterwards. */
  lemma InsertAtProperties(h: Nodes, parent: Id, index: nat, nested: Id)
    requires Linked(h)
    ensures var d := AfterInsertAt(h, parent, index, nested);
      var s := GetNested(h, parent);
      parent in d.nodes &&
      (d.result.Ok? <==> index <= |s| && Parent(h, nested).None?) &&
      (index > |s| ==> d.result == Err(IndexOutOfBounds(index, |s|))) &&
      (d.result.Err? ==> d.nodes == h[parent := Entry(h, parent)]) &&
      (d.result.Ok? ==>
        Parent(d.nodes, nested) == Some(parent) &&
        GetNested(d.nodes, parent) == s[..index] + [nested] + s[index..] &&
        Linked(d.nodes))
  {
    var d := AfterInsertAt(h, parent, index, nested);
    if d.result.Ok? {
      assert d.nodes == Link(h, parent, nested, index);
      LinkProperties(h, parent, nested, index);
    }
  }

  /** `add_nested` keeps the links in agreement; when it succeeds, the list is appended to
      the parent's, in order, and each of its nodes has that parent. */
  lemma {:induction false} AddNestedProperties(h: Nodes, parent: Id, nested: seq<Id>)
    requires Linked(h)
    ensures var d := AfterAddNested(h, parent, nested);
      Linked(d.nodes) &&
      (d.result.Ok? ==>
        GetNested(d.nodes, parent) == GetNested(h, parent) + nested &&
        forall n :: n in nested ==> Parent(d.nodes, n) == Some(parent))
    decreases |nested|
  {
    if nested != [] {
      var n := nested[0];
      var rest := nested[1..];
      AddProperties(h, parent, n);
      var d := AfterAdd(h, parent, n);
      if d.result.Ok? {
        AddNestedProperties(d.nodes, parent, rest);
        var d2 := AfterAddNested(d.nodes, parent, rest);
        if d2.result.Ok? {
          assert nested == [n] + rest;
          AddNestedKeepsParents(d.nodes, parent, rest, n);
        }
      }
    }
  }

  /** Successful adds never change an existing parent link. */
  lemma {:induction false} AddNestedKeepsParents(h: Nodes, parent: Id, nested: seq<Id>, x: Id)
    requires Linked(h) && Parent(h, x).Some?
    ensures Parent(AfterAddNested(h, parent, nested).nodes, x) == Parent(h, x)
    decreases |nested|
  {
    if nested != [] {
      AddProperties(h, parent, nested[0]);
      var d := AfterAdd(h, parent, nested[0]);
      if d.result.Ok? {
        AddNestedKeepsParents(d.nodes, parent, nested[1..], x);
      }
    }
  }

  /** `add_nested` of distinct parentless nodes, none of them the parent, succeeds. */
  lemma {:induction false} AddNestedSucceeds(h: Nodes, parent: Id, nested: seq<Id>)
    requires Linked(h) && Distinct(nested) && parent !in nested
    requires forall n :: n in nested ==> Parent(h, n).None?
    ensures AfterAddNested(h, parent, nested).result.Ok?
    decreases |nested|
  {
    if nested != [] {
      var n := nested[0];
      var rest := nested[1..];
      AddProperties(h, parent, n);
      var d := AfterAdd(h, parent, n);
      forall m | m in rest
        ensures Parent(d.nodes, m).None?
      {
        var k :| 0 <= k < |rest| && rest[k] == m;
        assert nested[k + 1] == m && nested[0] == n;
      }
      forall i, j | 0 <= i < j < |rest|
        ensures rest[i] != rest[j]
      {
        assert rest[i] == nested[i + 1] && rest[j] == nested[j + 1];
      }
      AddNestedSucceeds(d.nodes, parent, rest);
    }
  }

  /** Adding a node below a parent that is not in the node's tree keeps the hierarchy
      free of cycles: the node's tree moves below the parent. */
  lemma AddKeepsRanked(h: Nodes, parent: Id, nested: Id, depth: Id -> nat)
    requires Linked(h) && Ranked(h, depth) && Parent(h, nested).None?
    requires !Below(h, parent, nested, depth)
    ensures Ranked(AfterAdd(h, parent, nested).nodes,
      x => if Below(h, x, nested, depth) then depth(x) + depth(parent) + 1 else depth(x))
  {
    var r := AfterAdd(h, parent, nested).nodes;
    var depth' := x => if Below(h, x, nested, depth) then depth(x) + depth(parent) + 1 else depth(x);
    forall x | x in r && r[x].parent.Some?
      ensures depth'(r[x].parent.value) < depth'(x)
    {
      var q := r[x].parent.value;
      if x == nested {
        assert q == parent;
      } else {
        assert x in h && h[x].parent == Some(q);
        if Below(h, x, nested, depth) {
          assert Below(h, q, nested, depth);
        }
      }
    }
  }

  /** Adding does not reject cycles: two nodes can each be the other's parent, and then no
      depth ranks the hierarchy. */
  lemma AddPermitsCycles()
    ensures var d1 := AfterAdd(map[], 1, 2);
      var d2 := AfterAdd(d1.nodes, 2, 1);
      d1.result.Ok? && d2.result.Ok? &&
      Parent(d2.nodes, 1) == Some(2) && Parent(d2.nodes, 2) == Some(1) &&
      Linked(d2.nodes) && forall depth: Id -> nat :: !Ranked(d2.nodes, depth)
  {
    var d1 := AfterAdd(map[], 1, 2);
    AddProperties(map[], 1, 2);
    AddProperties(d1.nodes, 2, 1);
  }

  /** The removal tests of the source: removing a node removes its nested tree. */
  lemma RemoveWithNestedExample()
    ensures var h := AfterAdd(AfterAdd(map[], 1, 2).nodes, 2, 3).nodes;
      AfterRemove(h, 1) == Returns(Done(map[], Ok(())))
  {
    assert [] + [2] == [2] && [] + [3] == [3];
    var h1 := AfterAdd(map[], 1, 2).nodes;
    assert h1 == map[2 := Node(Some(1), []), 1 := Node(None, [2])];
    var h2 := AfterAdd(h1, 2, 3).nodes;
    assert h2 == map[1 := Node(None, [2]), 2 := Node(Some(1), [3]), 3 := Node(Some(2), [])];
    var g3 := map[3 := Node(Some(2), [])];
    assert RemoveTree(g3, 3) == Returns(map[]) by { assert g3 - {3} == map[]; }
    var g2 := map[2 := Node(Some(1), [3]), 3 := Node(Some(2), [])];
    assert RemoveTree(g2, 2) == Returns(map[]) by { assert g2 - {2} == g3; }
    assert h2 - {1} == g2;
  }

  /** Removing a nested node keeps the order of its siblings and keeps the parent. */
  lemma RemoveKeepsOrderExample()
    ensures var r := AfterRemove(ThreeSiblings(), 3);
      r.Returns? && r.value.result.Ok? && GetNested(r.value.nodes, 1) == [2, 4] && Exists(r.value.nodes, 1)
  {
    ThreeSiblingsNodes();
    var h := ThreeSiblings();
    assert Position([2, 3, 4], 3) == Some(1);
    var u := h[1 := Node(None, [2, 4])];
    assert [2, 3, 4][..1] + [2, 3, 4][2..] == [2, 4];
    assert RemoveTree(u, 3) == Returns(u - {3});
  }

  /** The query tests of the source: a group holds the node itself among its siblings, a
      root's group is empty, and a node's neighbours follow the bias except at the ends. */
  lemma QueryExamples()
    ensures var h := ThreeSiblings();
      Group(h, 3) == [2, 3, 4] && Group(h, 1) == [] && Index(h, 3) == Some(1) &&
      Neighbor(h, 3, Begin) == Some(2) && Neighbor(h, 3, End) == Some(4) &&
      Neighbor(h, 2, Begin) == Some(3) && Neighbor(h, 4, End) == Some(3) && Neighbor(h, 1, End) == None
  {
    ThreeSiblingsNodes();
    assert Position([2, 3, 4], 2) == Some(0);
    assert Position([2, 3, 4], 3) == Some(1);
    assert Position([2, 3, 4], 4) == Some(2);
  }

  /** The hierarchy of the source's tests, built by three adds. */
  function ThreeSiblings(): Nodes {
    AfterAdd(AfterAdd(AfterAdd(map[], 1, 2).nodes, 1, 3).nodes, 1, 4).nodes
  }

  lemma ThreeSiblingsNodes()
    ensures ThreeSiblings() == map[1 := Node(None, [2, 3, 4]), 2 := Node(Some(1), []), 3 := Node(Some(1), []), 4 := Node(Some(1), [])]
  {
    assert [] + [2] == [2] && [2] + [3] == [2, 3] && [2, 3] + [4] == [2, 3, 4];
    var h1 := AfterAdd(map[], 1, 2).nodes;
    assert h1 == map[2 := Node(Some(1), []), 1 := Node(None, [2])];
    var h2 := AfterAdd(h1, 1, 3).nodes;
    assert h2 == map[1 := Node(None, [2, 3]), 2 := Node(Some(1), []), 3 := Node(Some(1), [])];
  }

  /** A neighbour is a different member of the group, and one exists exactly when the
      group has another member. */
  lemma NeighborProperties(h: Nodes, id: Id, bias: DirectionBias)
    requires Linked(h)
    ensures Index(h, id).Some? ==> (Neighbor(h, id, bias).Some? <==> |Group(h, id)| > 1)
    ensures Neighbor(h, id, bias).Some? ==>
      Neighbor(h, id, bias).value in Group(h, id) && Neighbor(h, id, bias).value != id
  {
    match Index(h, id)
    case None =>
    case Some(i) =>
      var g := Group(h, id);
      var p := h[id].parent.value;
      assert g == h[p].nested && Distinct(g) && g[i] == id;
  }

  /** `OrderedHierarchy`. */
  class OrderedHierarchy {
    var nodes: Nodes

    /** `default`: empty. */
    constructor()
      ensures nodes == map[]
    {
      nodes := map[];
    }

    method Add(parent: Id, nested: Id) returns (result: Result<(), HierarchyError>)
      modifies this
      ensures Done(nodes, result) == AfterAdd(old(nodes), parent, nested)
    {
      var state := Entry(nodes, nested);
      if state.parent.Some? {
        return Err(AlreadyHasParent(nested));
      }
      nodes := nodes[nested := state.(parent := Some(parent))];
      var p := Entry(nodes, parent);
      nodes := nodes[parent := p.(nested := p.nested + [nested])];
      result := Ok(());
    }

    method AddNested(parent: Id, nested: seq<Id>) returns (result: Result<(), HierarchyError>)
      modifies this
      ensures Done(nodes, result) == AfterAddNested(old(nodes), parent, nested)
    {
      for i := 0 to |nested|
        invariant AfterAddNested(old(nodes), parent, nested) == AfterAddNested(nodes, parent, nested[i..])
      {
        assert nested[i..][1..] == nested[i + 1..];
        result := Add(parent, nested[i]);
        if result.Err? {
          return;
        }
      }
      assert nested[|nested|..] == [];
      result := Ok(());
    }

    method InsertAt(parent: Id, index: nat, nested: Id) returns (result: Result<(), HierarchyError>)
      modifies this
      ensures Done(nodes, result) == AfterInsertAt(old(nodes), parent, index, nested)
    {
      nodes := nodes[parent := Entry(nodes, parent)];
      var count := |nodes[parent].nested|;
      if index > count {
        return Err(IndexOutOfBounds(index, count));
      }
      var state := Entry(nodes, nested);
      if state.parent.Some? {
        return Err(AlreadyHasParent(nested));
      }
      nodes := nodes[nested := state.(parent := Some(parent))];
      var list := nodes[parent].nested;
      nodes := nodes[parent := nodes[parent].(nested := list[..index] + [nested] + list[index..])];
      result := Ok(());
    }

    /** `remove`; `panicked` stands for the source's panics. */
    method Remove(id: Id) returns (panicked: bool, result: Result<(), HierarchyError>)
      modifies this
      ensures AfterRemove(old(nodes), id) == if panicked then Panics else Returns(Done(nodes, result))
    {
      if id !in nodes {
        return false, Err(IdNotFound(id));
      }
      var parent := nodes[id].parent;
      if parent.Some? {
        var p := parent.value;
        if p !in nodes {
          return true, Ok(());
        }
        var list := nodes[p].nested;
        var i := 0;
        while i < |list| && list[i] != id
          invariant i <= |list| && id !in list[..i]
        {
          assert list[..i + 1] == list[..i] + [list[i]];
          i := i + 1;
        }
        if i == |list| {
          assert list[..i] == list;
          return false, Err(NestedNotFound);
        }
        PositionFirst(list, id, i);
        nodes := nodes[p := nodes[p].(nested := list[..i] + list[i + 1..])];
      }
      panicked := RemoveNested(id);
      result := Ok(());
    }

    /** `remove_nested_with_expected_parent`. */
    method RemoveNested(id: Id) returns (panicked: bool)
      modifies this
      ensures RemoveTree(old(nodes), id) == if panicked then Panics else Returns(nodes)
      decreases nodes.Keys
    {
      if id !in nodes {
        return true;
      }
      var nested := nodes[id].nested;
      nodes := nodes - {id};
      ghost var g := nodes;
      for i := 0 to |nested|
        invariant nodes.Keys <= g.Keys
        invariant RemoveTrees(g, nested) == RemoveTrees(nodes, nested[i..])
      {
        assert nested[i..][1..] == nested[i + 1..];
        panicked := RemoveNested(nested[i]);
        if panicked {
          return;
        }
      }
      assert nested[|nested|..] == [];
      panicked := false;
    }
  }

  /** The first index holding `x` is its position. */
  lemma PositionFirst(s: seq<Id>, x: Id, i: nat)
    requires i < |s| && s[i] == x && x !in s[..i]
    ensures Position(s, x) == Some(i)
  {
  }
}
