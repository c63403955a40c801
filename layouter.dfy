/** The one-shot layouter of layout/src/layouter.rs as objects: a `Layouter` for each open
    container, the `Inner` state its children are recorded into, and the placing of the
    finished trace.

    A nested layouter borrows its parent's `Inner`: it takes the parent's trace, records
    its own children after it and, when dropped, hands the trace back and records itself
    as the parent's next child. Each `Inner` carries as ghost state the entries recorded
    before its first child (`base`) and the trees of its children so far (`kids`);
    `Valid` ties the concrete trace, offset and size to them. */
module Layouters {
  import opened Wrappers
  import D = DimensionalTypes
  import opened LayoutTrees

  /** `Inner`: the state of one open container. */
  class Inner<Id> {
    const rank: nat
    const layoutAxis: LayoutAxis
    var trace: seq<TraceEntry<Id>>
    var offset: D.Offset
    var size: D.Size
    var children: nat
    ghost var base: seq<TraceEntry<Id>>
    ghost var kids: seq<Layout<Id>>

    /** Offset, size and child count are those of the children recorded so far. */
    ghost predicate Holds()
      reads this
    {
      Records(base, kids, layoutAxis, rank, offset, size, children)
    }

    /** The container owns the trace: the entries before it, then its children's. */
    ghost predicate Valid()
      reads this
    {
      Holds() && trace == base + EncodeAll(kids)
    }

    /** The trace is lent to a nested layouter. */
    ghost predicate Suspended()
      reads this
    {
      Holds() && trace == []
    }

    constructor (rank: nat, layoutAxis: LayoutAxis, trace: seq<TraceEntry<Id>>)
      requires RankedTrace(trace, rank)
      ensures this.rank == rank && this.layoutAxis == layoutAxis
      ensures this.trace == trace && base == trace && kids == []
      ensures offset == D.ZeroOffset(rank) && size == D.EmptySize(rank) && children == 0
      ensures Valid()
    {
      this.rank := rank;
      this.layoutAxis := layoutAxis;
      this.trace := trace;
      offset := D.ZeroOffset(rank);
      size := D.EmptySize(rank);
      children := 0;
      base := trace;
      kids := [];
    }

    /** `mem::take` of the trace, when a nested layouter borrows it. */
    method Lend() returns (lent: seq<TraceEntry<Id>>)
      requires Valid()
      modifies this
      ensures lent == old(trace) && Suspended()
      ensures base == old(base) && kids == old(kids)
      ensures offset == old(offset) && size == old(size) && children == old(children)
    {
      lent := trace;
      trace := [];
    }

    /** `Inner::child`: records a child of `childSize` with `children` children of its own
        at the running offset, advances the offset along the layout axis and grows the
        size. Indexing the child's size by a layout axis the rank does not have panics,
        after the entry was pushed. The ghost `kid` is the child's tree, whose own trace the
        trace already ends with. */
    method Child(id: Id, childSize: D.Size, children: nat, ghost kid: Layout<Id>) returns (panicked: bool)
      requires Holds() && |childSize| == rank
      requires kid.id == id && kid.bx == D.Box(offset, childSize) && |NestedOf(kid)| == children
      requires Arranged(kid, rank)
      requires trace == base + EncodeAll(kids) + EncodeAll(NestedOf(kid))
      modifies this
      ensures panicked <==> layoutAxis >= rank
      ensures trace == old(trace) + [TraceEntry(id, D.Box(old(offset), childSize), children)]
      ensures base == old(base)
      ensures !panicked ==> kids == old(kids) + [kid] && Valid()
    {
      trace := trace + [TraceEntry(id, D.Box(offset, childSize), children)];
      if layoutAxis >= rank {
        return true;
      }
      var grown := Grown(size, childSize, layoutAxis);
      Advance(childSize, grown, kid);
      panicked := false;
    }

    /** The rest of `Inner::child` once the entry is pushed and the axis exists: the offset
        advances along the layout axis and the size becomes `grown`. */
    method Advance(childSize: D.Size, grown: D.Size, ghost kid: Layout<Id>)
      requires Holds() && |childSize| == rank && layoutAxis < rank
      requires grown == Combine(size, childSize, layoutAxis)
      requires kid.bx == D.Box(offset, childSize) && Arranged(kid, rank)
      requires trace == base + EncodeAll(kids) + EncodeAll(NestedOf(kid)) + [EntryOf(kid)]
      modifies this
      ensures trace == old(trace) && base == old(base) && kids == old(kids) + [kid] && Valid()
    {
      var axis := layoutAxis;
      var advanced := offset[axis := offset[axis] + childSize[axis] as int];
      RecordsStep(base, kids, kid, axis, rank, offset, size, this.children, childSize);
      TraceStep(trace, base, kids, kid);
      offset, size, this.children, kids := advanced, grown, this.children + 1, kids + [kid];
    }
  }

  /** The loop of `Inner::child` over the components of the size. */
  method Grown(size: D.Size, childSize: D.Size, axis: LayoutAxis) returns (grown: D.Size)
    requires |childSize| == |size|
    ensures grown == Combine(size, childSize, axis)
  {
    grown := size;
    for i := 0 to |size|
      invariant |grown| == |size|
      invariant forall k :: 0 <= k < i ==> grown[k] == Combine(size, childSize, axis)[k]
      invariant forall k :: i <= k < |size| ==> grown[k] == size[k]
    {
      if i == axis {
        grown := grown[i := grown[i] + childSize[i]];
      } else {
        grown := grown[i := if grown[i] < childSize[i] then childSize[i] else grown[i]];
      }
    }
  }

  /** The state of a container after recording `kids` along `axis` after the entries
      `base`: the children are arranged, each at the running offset, `offset` and `size`
      are the running offset and the stacked size after them, and `children` counts them. */
  ghost predicate Records<Id>(base: seq<TraceEntry<Id>>, kids: seq<Layout<Id>>, axis: LayoutAxis, rank: nat,
                              offset: D.Offset, size: D.Size, children: nat) {
    |offset| == rank && |size| == rank && children == |kids| &&
    RankedTrace(base, rank) && ArrangedAll(kids, rank) && (kids != [] ==> axis < rank) &&
    StackedAt(kids, axis, rank) &&
    size == Stacked(SizesOf(kids), axis, rank) &&
    offset == RunningOffset(SizesOf(kids), axis, rank)
  }

  /** `Inner::child` keeps the recorded state: advancing the offset and growing the size by
      one more child is recording that child. */
  lemma RecordsStep<Id>(base: seq<TraceEntry<Id>>, kids: seq<Layout<Id>>, kid: Layout<Id>, axis: LayoutAxis, rank: nat,
                        offset: D.Offset, size: D.Size, children: nat, childSize: D.Size)
    requires Records(base, kids, axis, rank, offset, size, children)
    requires Arranged(kid, rank) && axis < rank && kid.bx == D.Box(offset, childSize)
    ensures Records(base, kids + [kid], axis, rank, offset[axis := offset[axis] + childSize[axis] as int],
                    Combine(size, childSize, axis), children + 1)
  {
    RecordedStep(kids, kid, axis, rank, offset, size);
  }

  /** What `Inner::child` does to the children it records, stated on the ghost state: one
      more child keeps the children arranged and stacked, with the offset and the size
      advanced as `child` advances them. */
  lemma RecordedStep<Id>(kids: seq<Layout<Id>>, kid: Layout<Id>, axis: LayoutAxis, rank: nat, offset: D.Offset, size: D.Size)
    requires ArrangedAll(kids, rank) && StackedAt(kids, axis, rank) && Arranged(kid, rank) && axis < rank
    requires size == Stacked(SizesOf(kids), axis, rank) && offset == RunningOffset(SizesOf(kids), axis, rank)
    requires kid.bx.offset == offset
    ensures ArrangedAll(kids + [kid], rank) && StackedAt(kids + [kid], axis, rank)
    ensures Combine(size, kid.bx.size, axis) == Stacked(SizesOf(kids + [kid]), axis, rank)
    ensures offset[axis := offset[axis] + kid.bx.size[axis] as int] == RunningOffset(SizesOf(kids + [kid]), axis, rank)
  {
    ChildStep(kids, kid, axis, rank);
    var sizes := SizesOf(kids + [kid]);
    assert sizes == SizesOf(kids) + [kid.bx.size];
    StackedStep(SizesOf(kids), kid.bx.size, axis, rank);
    assert Stacked(sizes, axis, rank) == Combine(size, kid.bx.size, axis);
    RunningOffsetStep(SizesOf(kids), kid.bx.size, axis, rank);
    assert RunningOffset(sizes, axis, rank) == offset[axis := offset[axis] + kid.bx.size[axis] as int];
  }

  /** The entry `Inner::child` pushes completes the trace of the children with one more. */
  lemma TraceStep<Id>(trace: seq<TraceEntry<Id>>, base: seq<TraceEntry<Id>>, kids: seq<Layout<Id>>, kid: Layout<Id>)
    requires trace == base + EncodeAll(kids) + EncodeAll(NestedOf(kid)) + [EntryOf(kid)]
    ensures trace == base + EncodeAll(kids + [kid])
  {
    EncodeNested(kid);
    EncodeAllStep(kids, kid);
  }

  /** One more child keeps the children arranged and stacked, and extends their sizes. */
  lemma ChildStep<Id>(kids: seq<Layout<Id>>, kid: Layout<Id>, axis: LayoutAxis, rank: nat)
    requires ArrangedAll(kids, rank) && StackedAt(kids, axis, rank) && Arranged(kid, rank)
    requires kid.bx.offset == RunningOffset(SizesOf(kids), axis, rank)
    ensures SizesOf(kids + [kid]) == SizesOf(kids) + [kid.bx.size]
    ensures ArrangedAll(kids + [kid], rank) && StackedAt(kids + [kid], axis, rank)
  {
    var all := kids + [kid];
    assert forall k :: 0 <= k < |kids| ==> all[k] == kids[k];
    assert SizesOf(all) == SizesOf(kids) + [kid.bx.size];
    assert forall k :: 0 <= k <= |kids| ==> SizesOf(all)[..k] == SizesOf(kids)[..k];
  }

  lemma EncodeAllStep<Id>(ls: seq<Layout<Id>>, l: Layout<Id>)
    ensures EncodeAll(ls + [l]) == EncodeAll(ls) + Encode(l)
  {
    var all := ls + [l];
    assert all[..|ls|] == ls;
  }

  /** `Layouter`: an open container with its id and, unless it is the root, the `Inner` of
      the container it is nested in. */
  class Layouter<Id> {
    const id: Id
    var parent: Inner?<Id>
    const inner: Inner<Id>

    /** The inner state owns the trace; a parent lent it its trace and holds the entries
        before this container's first child. */
    ghost predicate Valid()
      reads this, inner, parent
    {
      inner.Valid() && parent != inner &&
      (parent == null ==> inner.base == []) &&
      (parent != null ==>
        parent.Suspended() && parent.rank == inner.rank &&
        inner.base == parent.base + EncodeAll(parent.kids))
    }

    /** `Layouter::new`: takes the parent's trace, if there is a parent. */
    constructor New(parent: Inner?<Id>, id: Id, layoutAxis: LayoutAxis, rank: nat)
      requires parent != null ==> parent.Valid() && parent.rank == rank
      modifies parent
      ensures this.id == id && this.parent == parent && fresh(inner)
      ensures inner.rank == rank && inner.layoutAxis == layoutAxis && inner.kids == []
      ensures inner.offset == D.ZeroOffset(rank) && inner.size == D.EmptySize(rank)
      ensures parent != null ==>
        inner.trace == old(parent.trace) && parent.trace == [] &&
        parent.kids == old(parent.kids) && parent.base == old(parent.base) &&
        parent.offset == old(parent.offset) && parent.size == old(parent.size) &&
        parent.children == old(parent.children)
      ensures parent == null ==> inner.trace == []
      ensures Valid()
    {
      var trace := [];
      if parent != null {
        trace := parent.Lend();
        EncodeAllRanked(parent.kids, rank);
      }
      this.id := id;
      this.parent := parent;
      inner := new Inner(rank, layoutAxis, trace);
    }

    /** `Layouter::root`. */
    static method Root(id: Id, layoutAxis: LayoutAxis, rank: nat) returns (l: Layouter<Id>)
      ensures fresh(l) && fresh(l.inner) && l.Valid() && l.parent == null
      ensures l.id == id && l.inner.rank == rank && l.inner.layoutAxis == layoutAxis
      ensures l.inner.kids == [] && l.inner.trace == []
    {
      l := new Layouter.New(null, id, layoutAxis, rank);
    }

    /** `Layouter::container`: a nested layouter borrowing this one's inner state. */
    method Container(id: Id, layoutAxis: LayoutAxis) returns (nested: Layouter<Id>)
      requires inner.Valid()
      modifies inner
      ensures fresh(nested) && fresh(nested.inner) && nested.Valid()
      ensures nested.parent == inner && nested.id == id
      ensures nested.inner.rank == inner.rank && nested.inner.layoutAxis == layoutAxis
      ensures nested.inner.kids == []
      ensures inner.Suspended() && inner.kids == old(inner.kids) && inner.base == old(inner.base)
    {
      nested := new Layouter.New(inner, id, layoutAxis, inner.rank);
    }

    /** `Layouter::leaf`: records a leaf of `childSize`; panics on a layout axis the rank
        does not have. */
    method Leaf(id: Id, childSize: D.Size) returns (panicked: bool)
      requires Valid() && |childSize| == inner.rank
      modifies inner
      ensures panicked <==> inner.layoutAxis >= inner.rank
      ensures !panicked ==>
        Valid() && inner.kids == old(inner.kids) + [LayoutTrees.Leaf(id, D.Box(old(inner.offset), childSize))]
    {
      ghost var kid := LayoutTrees.Leaf(id, D.Box(inner.offset, childSize));
      assert EncodeAll(NestedOf(kid)) == [];
      panicked := inner.Child(id, childSize, 0, kid);
    }

    /** `Layouter::size`: the stacked size of the children recorded so far. */
    function Size(): (s: D.Size)
      reads this, inner
      requires inner.Holds()
      ensures |s| == inner.rank
      ensures s == Stacked(SizesOf(inner.kids), inner.layoutAxis, inner.rank)
    {
      inner.size
    }

    /** The tree this layouter has recorded: its container at the origin with the children
        recorded so far. */
    ghost function Tree(): Layout<Id>
      reads this, inner
    {
      LayoutTrees.Container(id, D.Box(D.ZeroOffset(inner.rank), inner.size), inner.layoutAxis, inner.kids)
    }

    /** `drop`: a nested layouter hands the trace back and is recorded as its parent's next
        child, a container with the size and children it reached. Dropping the root does
        nothing. */
    method Drop() returns (panicked: bool)
      requires Valid()
      modifies this, inner, parent
      ensures parent == null
      ensures panicked <==> old(parent) != null && old(parent.layoutAxis) >= inner.rank
      ensures old(parent) != null && !panicked ==>
        old(parent).Valid() && old(parent).base == old(parent.base) &&
        old(parent).kids == old(parent.kids) +
          [LayoutTrees.Container(id, D.Box(old(parent.offset), old(inner.size)), inner.layoutAxis, old(inner.kids))]
    {
      panicked := false;
      if parent != null {
        var p := parent;
        parent := null;
        p.trace := inner.trace;
        inner.trace := [];
        ghost var kid := LayoutTrees.Container(id, D.Box(p.offset, inner.size), inner.layoutAxis, inner.kids);
        assert NestedOf(kid) == inner.kids;
        panicked := p.Child(id, inner.size, inner.children, kid);
      }
    }

    /** `Layouter::place`: places the recorded tree at `absoluteOffset`, emitting the root
        first and each container before its children, the last recorded child first. Only a
        root may be placed. */
    method Place(absoluteOffset: D.Offset) returns (panicked: bool, out: seq<(Id, D.Box)>)
      requires Valid() && |absoluteOffset| == inner.rank
      modifies inner
      ensures panicked <==> parent != null
      ensures !panicked ==>
        Arranged(old(Tree()), inner.rank) &&
        out == Placed(old(Tree()), absoluteOffset) && inner.trace == []
    {
      if parent != null {
        return true, [];
      }
      ghost var tree := Tree();
      var entry := TraceEntry(id, D.Box(D.ZeroOffset(inner.rank), Size()), inner.children);
      assert entry == EntryOf(tree);
      PlaceEncoded([], tree, absoluteOffset);
      assert [] + EncodeAll(inner.kids) == inner.trace;
      var p, rest, emitted := PlaceRecInto(inner.trace, absoluteOffset, entry);
      inner.trace := rest;
      return false, emitted;
    }
  }

  /** The children-loop outcome with `out` emitted in front. */
  function Prepended<Id>(out: seq<(Id, D.Box)>, r: Outcome<Placement<Id>>): Outcome<Placement<Id>> {
    match r
    case Panics => Panics
    case Returns(q) => Returns(Placement(out + q.out, q.trace))
  }

  lemma PrependedNothing<Id>(r: Outcome<Placement<Id>>)
    ensures Prepended([], r) == r
  {
    if r.Returns? {
      assert [] + r.value.out == r.value.out;
    }
  }

  lemma PrependedAssociates<Id>(a: seq<(Id, D.Box)>, b: seq<(Id, D.Box)>, r: Outcome<Placement<Id>>)
    ensures Prepended(a, Prepended(b, r)) == Prepended(a + b, r)
  {
    if r.Returns? {
      assert a + (b + r.value.out) == (a + b) + r.value.out;
    }
  }

  /** `add_offset`, one component at a time. */
  method AddOffsetTo(rect: D.Box, offset: D.Offset) returns (r: D.Box)
    requires |rect.offset| == |offset|
    ensures r == AddOffset(rect, offset)
  {
    var moved := rect.offset;
    for i := 0 to |offset|
      invariant |moved| == |offset|
      invariant forall k :: 0 <= k < i ==> moved[k] == rect.offset[k] + offset[k]
      invariant forall k :: i <= k < |offset| ==> moved[k] == rect.offset[k]
    {
      moved := moved[i := moved[i] + offset[i]];
    }
    r := D.Box(moved, rect.size);
  }

  /** One turn of the children loop of `place_rec`, seen from the children's outcome: the
      last entry is popped and placed; if it panics, so do the children, otherwise its boxes
      are emitted and one child fewer is left to place from what it left over. */
  lemma ChildrenTurn<Id>(whole: Outcome<Placement<Id>>, placed: seq<(Id, D.Box)>, rest: seq<TraceEntry<Id>>, offset: D.Offset, n: nat)
    requires n > 0 && rest != [] && RankedTrace(rest, |offset|)
    requires whole == Prepended(placed, PlaceChildren(rest, offset, n))
    ensures RankedTrace(rest[..|rest| - 1], |offset|) && |rest[|rest| - 1].bx.offset| == |offset|
    ensures PlaceRec(rest[..|rest| - 1], offset, rest[|rest| - 1]).Panics? ==> whole == Panics
    ensures PlaceRec(rest[..|rest| - 1], offset, rest[|rest| - 1]).Returns? ==>
      var p := PlaceRec(rest[..|rest| - 1], offset, rest[|rest| - 1]).value;
      |p.trace| < |rest| && RankedTrace(p.trace, |offset|) &&
      whole == Prepended(placed + p.out, PlaceChildren(p.trace, offset, n - 1))
  {
    var init, last := rest[..|rest| - 1], rest[|rest| - 1];
    assert rest == init + [last];
    PlaceChildrenStep(init, last, offset, n);
    match PlaceRec(init, offset, last)
    case Panics =>
    case Returns(p) =>
      PrependedAssociates(placed, p.out, PlaceChildren(p.trace, offset, n - 1));
  }

  /** `place_rec` over a trace it pops from the end, returning what it emits in order. It
      panics exactly where PlaceRec does; otherwise it emits PlaceRec's boxes and leaves its
      trace. */
  method PlaceRecInto<Id>(trace: seq<TraceEntry<Id>>, offset: D.Offset, entry: TraceEntry<Id>)
    returns (panicked: bool, rest: seq<TraceEntry<Id>>, emitted: seq<(Id, D.Box)>)
    requires RankedTrace(trace, |offset|) && |entry.bx.offset| == |offset|
    ensures panicked <==> PlaceRec(trace, offset, entry).Panics?
    ensures !panicked ==> Returns(Placement(emitted, rest)) == PlaceRec(trace, offset, entry)
    decreases |trace|, 1
  {
    var absolute := AddOffsetTo(entry.bx, offset);
    var children;
    panicked, rest, children := PlaceChildrenInto(trace, absolute.offset, entry.children);
    emitted := [(entry.id, absolute)] + children;
  }

  /** The loop of `place_rec`: pops and places `n` children, each relative to `offset`. */
  method PlaceChildrenInto<Id>(trace: seq<TraceEntry<Id>>, offset: D.Offset, n: nat)
    returns (panicked: bool, rest: seq<TraceEntry<Id>>, emitted: seq<(Id, D.Box)>)
    requires RankedTrace(trace, |offset|)
    ensures panicked <==> PlaceChildren(trace, offset, n).Panics?
    ensures !panicked ==> Returns(Placement(emitted, rest)) == PlaceChildren(trace, offset, n)
    decreases |trace|, 0
  {
    ghost var whole := PlaceChildren(trace, offset, n);
    emitted := [];
    rest := trace;
    PrependedNothing(whole);
    var remaining := n;
    while remaining > 0
      invariant |rest| <= |trace| && RankedTrace(rest, |offset|)
      invariant whole == Prepended(emitted, PlaceChildren(rest, offset, remaining))
    {
      if rest == [] {
        return true, rest, emitted;
      }
      ChildrenTurn(whole, emitted, rest, offset, remaining);
      var p, after, more := PlaceRecInto(rest[..|rest| - 1], offset, rest[|rest| - 1]);
      if p {
        return true, rest, emitted;
      }
      emitted := emitted + more;
      rest := after;
      remaining := remaining - 1;
    }
    panicked := false;
    assert emitted + [] == emitted;
  }
}

/** The scenarios of layout/src/layouter.rs's tests, stated as lemmas. */
module LayouterExamples {
  import D = DimensionalTypes
  import opened LayoutTrees
  import opened Layouters

  /** The running offsets and the size of three boxes laid out along the horizontal axis. */
  lemma HorizontalArithmetic()
    ensures RunningOffset([], HORIZONTAL, 2) == [0, 0]
    ensures RunningOffset([[100, 50]], HORIZONTAL, 2) == [100, 0]
    ensures RunningOffset([[100, 50], [200, 30]], HORIZONTAL, 2) == [300, 0]
    ensures Stacked([[100, 50], [200, 30], [150, 40]], HORIZONTAL, 2) == [450, 50]
  {
    var sizes := [[100, 50], [200, 30], [150, 40]];
    assert sizes[..2] == [[100, 50], [200, 30]] && sizes[..2][..1] == [[100, 50]];
    assert SumAt([[100, 50]], 0) == 100;
    assert SumAt(sizes, 0) == 450;
    assert MaxAt(sizes, 1) == 50;
  }

  /** Placing the three-leaf row at the origin emits the row, then its leaves last first. */
  lemma HorizontalPlaced(k1: Layout<nat>, k2: Layout<nat>, k3: Layout<nat>)
    requires k1 == LayoutTrees.Leaf(1, D.Box([0, 0], [100, 50]))
    requires k2 == LayoutTrees.Leaf(2, D.Box([100, 0], [200, 30]))
    requires k3 == LayoutTrees.Leaf(3, D.Box([300, 0], [150, 40]))
    ensures Arranged(LayoutTrees.Container(0, D.Box([0, 0], [450, 50]), HORIZONTAL, [k1, k2, k3]), 2)
    ensures Placed(LayoutTrees.Container(0, D.Box([0, 0], [450, 50]), HORIZONTAL, [k1, k2, k3]), [0, 0])
         == [(0, D.Box([0, 0], [450, 50])), (3, D.Box([300, 0], [150, 40])),
             (2, D.Box([100, 0], [200, 30])), (1, D.Box([0, 0], [100, 50]))]
  {
    var kids := [k1, k2, k3];
    assert kids[..2] == [k1, k2] && kids[..2][..1] == [k1] && [k1][..0] == [];
    HorizontalArithmetic();
    assert SizesOf([k1]) == [[100, 50]];
    assert SizesOf([k1, k2]) == [[100, 50], [200, 30]];
    assert SizesOf(kids) == [[100, 50], [200, 30], [150, 40]];
    assert ArrangedAll([k1][..0], 2) && Arranged(k1, 2);
    assert ArrangedAll([k1], 2) && StackedAt([k1], HORIZONTAL, 2);
    assert ArrangedAll([k1, k2], 2) && StackedAt([k1, k2], HORIZONTAL, 2);
    assert ArrangedAll(kids, 2) && StackedAt(kids, HORIZONTAL, 2);
    assert [0, 0] == D.ZeroOffset(2);
    AddZeroOffset(D.Box([0, 0], [450, 50]));
    AddZeroOffset(k3.bx);
    AddZeroOffset(k2.bx);
    AddZeroOffset(k1.bx);
    assert PlacedReversed([k1], [0, 0]) == [(1, D.Box([0, 0], [100, 50]))];
    assert PlacedReversed([k1, k2], [0, 0]) == [(2, D.Box([100, 0], [200, 30])), (1, D.Box([0, 0], [100, 50]))];
    assert PlacedReversed(kids, [0, 0]) == [(3, D.Box([300, 0], [150, 40])),
      (2, D.Box([100, 0], [200, 30])), (1, D.Box([0, 0], [100, 50]))];
  }

  /** A horizontal root records three leaves side by side. */
  method FillRow(root: Layouter<nat>)
    requires root.Valid() && root.parent == null && root.inner.rank == 2
    requires root.inner.layoutAxis == HORIZONTAL && root.inner.kids == []
    modifies root.inner
    ensures root.Valid()
    ensures root.inner.kids == [LayoutTrees.Leaf(1, D.Box([0, 0], [100, 50])),
      LayoutTrees.Leaf(2, D.Box([100, 0], [200, 30])), LayoutTrees.Leaf(3, D.Box([300, 0], [150, 40]))]
    ensures root.inner.size == [450, 50]
  {
    HorizontalArithmetic();
    var p1 := root.Leaf(1, [100, 50]);
    ghost var k1 := LayoutTrees.Leaf(1, D.Box([0, 0], [100, 50]));
    assert SizesOf([k1]) == [[100, 50]];
    var p2 := root.Leaf(2, [200, 30]);
    ghost var k2 := LayoutTrees.Leaf(2, D.Box([100, 0], [200, 30]));
    assert SizesOf([k1, k2]) == [[100, 50], [200, 30]];
    var p3 := root.Leaf(3, [150, 40]);
    ghost var k3 := LayoutTrees.Leaf(3, D.Box([300, 0], [150, 40]));
    assert SizesOf([k1, k2, k3]) == [[100, 50], [200, 30], [150, 40]];
  }

  /** Three leaves side by side: the root is as wide as the three and as high as the
      highest, and the leaves come out last recorded first. */
  method HorizontalLeaves() returns (panicked: bool, out: seq<(nat, D.Box)>)
    ensures !panicked
    ensures out == [(0, D.Box([0, 0], [450, 50])), (3, D.Box([300, 0], [150, 40])),
                    (2, D.Box([100, 0], [200, 30])), (1, D.Box([0, 0], [100, 50]))]
  {
    var root := Layouter.Root(0, HORIZONTAL, 2);
    FillRow(root);
    HorizontalPlaced(root.inner.kids[0], root.inner.kids[1], root.inner.kids[2]);
    assert D.ZeroOffset(2) == [0, 0];
    assert root.Tree() == LayoutTrees.Container(0, D.Box([0, 0], [450, 50]), HORIZONTAL, root.inner.kids);
    panicked, out := root.Place([0, 0]);
  }

  /** The running offsets and the size of a 10 and a 20 square side by side. */
  lemma PairArithmetic()
    ensures RunningOffset([], HORIZONTAL, 2) == [0, 0]
    ensures RunningOffset([[10, 10]], HORIZONTAL, 2) == [10, 0]
    ensures Stacked([[10, 10], [20, 20]], HORIZONTAL, 2) == [30, 20]
  {
    var sizes := [[10, 10], [20, 20]];
    assert sizes[..1] == [[10, 10]];
    assert SumAt([[10, 10]], 0) == 10;
    assert SumAt(sizes, 0) == 30 && MaxAt(sizes, 1) == 20;
  }

  /** A horizontal root records two square leaves, sized 10 and 20. */
  method FillPair(root: Layouter<nat>)
    requires root.Valid() && root.parent == null && root.inner.rank == 2
    requires root.inner.layoutAxis == HORIZONTAL && root.inner.kids == []
    modifies root.inner
    ensures root.Valid()
    ensures root.inner.kids == [LayoutTrees.Leaf(1, D.Box([0, 0], [10, 10])),
      LayoutTrees.Leaf(2, D.Box([10, 0], [20, 20]))]
    ensures root.inner.size == [30, 20]
  {
    PairArithmetic();
    var p1 := root.Leaf(1, [10, 10]);
    ghost var k1 := LayoutTrees.Leaf(1, D.Box([0, 0], [10, 10]));
    assert SizesOf([k1]) == [[10, 10]];
    var p2 := root.Leaf(2, [20, 20]);
    ghost var k2 := LayoutTrees.Leaf(2, D.Box([10, 0], [20, 20]));
    assert SizesOf([k1, k2]) == [[10, 10], [20, 20]];
  }

  /** Placing the pair at (100, 200) moves every box by that offset. */
  lemma PairPlaced(k1: Layout<nat>, k2: Layout<nat>)
    requires k1 == LayoutTrees.Leaf(1, D.Box([0, 0], [10, 10]))
    requires k2 == LayoutTrees.Leaf(2, D.Box([10, 0], [20, 20]))
    ensures Arranged(LayoutTrees.Container(0, D.Box([0, 0], [30, 20]), HORIZONTAL, [k1, k2]), 2)
    ensures Placed(LayoutTrees.Container(0, D.Box([0, 0], [30, 20]), HORIZONTAL, [k1, k2]), [100, 200])
         == [(0, D.Box([100, 200], [30, 20])), (2, D.Box([110, 200], [20, 20])), (1, D.Box([100, 200], [10, 10]))]
  {
    PairArithmetic();
    var kids := [k1, k2];
    assert kids[..1] == [k1] && [k1][..0] == [];
    assert SizesOf([k1]) == [[10, 10]] && SizesOf(kids) == [[10, 10], [20, 20]];
    assert ArrangedAll([k1][..0], 2) && Arranged(k1, 2);
    assert ArrangedAll([k1], 2) && StackedAt([k1], HORIZONTAL, 2);
    assert ArrangedAll(kids, 2) && StackedAt(kids, HORIZONTAL, 2);
    assert AddOffset(D.Box([0, 0], [30, 20]), [100, 200]) == D.Box([100, 200], [30, 20]);
    assert AddOffset(k1.bx, [100, 200]) == D.Box([100, 200], [10, 10]);
    assert AddOffset(k2.bx, [100, 200]) == D.Box([110, 200], [20, 20]);
    assert PlacedReversed([k1], [100, 200]) == [(1, D.Box([100, 200], [10, 10]))];
    assert PlacedReversed(kids, [100, 200]) == [(2, D.Box([110, 200], [20, 20])), (1, D.Box([100, 200], [10, 10]))];
  }

  /** Two leaves placed at a custom offset: every box, the root's included, is moved by it. */
  method CustomOffset() returns (panicked: bool, out: seq<(nat, D.Box)>)
    ensures !panicked
    ensures out == [(0, D.Box([100, 200], [30, 20])), (2, D.Box([110, 200], [20, 20])),
                    (1, D.Box([100, 200], [10, 10]))]
  {
    var root := Layouter.Root(0, HORIZONTAL, 2);
    FillPair(root);
    PairPlaced(root.inner.kids[0], root.inner.kids[1]);
    assert D.ZeroOffset(2) == [0, 0];
    assert root.Tree() == LayoutTrees.Container(0, D.Box([0, 0], [30, 20]), HORIZONTAL, root.inner.kids);
    panicked, out := root.Place([100, 200]);
  }

  /** A root without children is placed as a single empty box. */
  method EmptyRoot() returns (panicked: bool, out: seq<(nat, D.Box)>)
    ensures !panicked && out == [(0, D.Box([0, 0], [0, 0]))]
  {
    var root := Layouter.Root(0, HORIZONTAL, 2);
    assert root.inner.size == Stacked([], HORIZONTAL, 2) == [0, 0];
    assert [0, 0] == D.ZeroOffset(2);
    AddZeroOffset(D.Box([0, 0], [0, 0]));
    panicked, out := root.Place([0, 0]);
  }

  /** Stacking along the depth axis of two-dimensional boxes panics on the first child. */
  method DepthAxisPanics() returns (panicked: bool)
    ensures panicked
  {
    var root := Layouter.Root(0, DEPTH, 2);
    panicked := root.Leaf(1, [100, 200]);
  }

  /** The running offsets and the sizes of a vertical column of two boxes inside a row. */
  lemma NestedArithmetic()
    ensures RunningOffset([], VERTICAL, 2) == [0, 0]
    ensures RunningOffset([[20, 30]], VERTICAL, 2) == [0, 30]
    ensures Stacked([[20, 30], [25, 35]], VERTICAL, 2) == [25, 65]
    ensures RunningOffset([], HORIZONTAL, 2) == [0, 0]
    ensures RunningOffset([[50, 50]], HORIZONTAL, 2) == [50, 0]
    ensures RunningOffset([[50, 50], [25, 65]], HORIZONTAL, 2) == [75, 0]
    ensures Stacked([[50, 50], [25, 65], [60, 60]], HORIZONTAL, 2) == [135, 65]
  {
    var column := [[20, 30], [25, 35]];
    assert column[..1] == [[20, 30]];
    assert SumAt([[20, 30]], 1) == 30;
    assert SumAt(column, 1) == 65 && MaxAt(column, 0) == 25;
    var row := [[50, 50], [25, 65], [60, 60]];
    assert row[..2] == [[50, 50], [25, 65]] && row[..2][..1] == [[50, 50]];
    assert SumAt([[50, 50]], 0) == 50;
    assert SumAt([[50, 50], [25, 65]], 0) == 75;
    assert SumAt(row, 0) == 135 && MaxAt(row, 1) == 65;
  }

  /** The column of two leaves is arranged and, placed at the origin as the second child of
      the row, emits itself and then its leaves last first. */
  lemma ColumnPlaced(k2: Layout<nat>)
    requires k2 == LayoutTrees.Container(2, D.Box([50, 0], [25, 65]), VERTICAL,
      [LayoutTrees.Leaf(3, D.Box([0, 0], [20, 30])), LayoutTrees.Leaf(4, D.Box([0, 30], [25, 35]))])
    ensures Arranged(k2, 2)
    ensures Placed(k2, [0, 0]) == [(2, D.Box([50, 0], [25, 65])), (4, D.Box([50, 30], [25, 35])),
      (3, D.Box([50, 0], [20, 30]))]
  {
    NestedArithmetic();
    var k3, k4 := k2.nested[0], k2.nested[1];
    var column := [k3, k4];
    assert column[..1] == [k3] && [k3][..0] == [];
    assert SizesOf([k3]) == [[20, 30]];
    assert SizesOf(column) == [[20, 30], [25, 35]];
    assert ArrangedAll([k3][..0], 2) && Arranged(k3, 2);
    assert ArrangedAll([k3], 2) && StackedAt([k3], VERTICAL, 2);
    assert ArrangedAll(column, 2) && StackedAt(column, VERTICAL, 2);
    assert [0, 0] == D.ZeroOffset(2);
    AddZeroOffset(k2.bx);
    assert AddOffset(k3.bx, [50, 0]) == D.Box([50, 0], [20, 30]);
    assert AddOffset(k4.bx, [50, 0]) == D.Box([50, 30], [25, 35]);
    assert PlacedReversed([k3], [50, 0]) == [(3, D.Box([50, 0], [20, 30]))];
    assert PlacedReversed(column, [50, 0]) == [(4, D.Box([50, 30], [25, 35])), (3, D.Box([50, 0], [20, 30]))];
  }

  /** Placing the row with a nested column at the origin: the row, its last leaf, the
      column followed by its own children last first, then the first leaf. */
  lemma NestedPlaced(k1: Layout<nat>, k2: Layout<nat>, k5: Layout<nat>)
    requires k1 == LayoutTrees.Leaf(1, D.Box([0, 0], [50, 50]))
    requires k2 == LayoutTrees.Container(2, D.Box([50, 0], [25, 65]), VERTICAL,
      [LayoutTrees.Leaf(3, D.Box([0, 0], [20, 30])), LayoutTrees.Leaf(4, D.Box([0, 30], [25, 35]))])
    requires k5 == LayoutTrees.Leaf(5, D.Box([75, 0], [60, 60]))
    ensures Arranged(LayoutTrees.Container(0, D.Box([0, 0], [135, 65]), HORIZONTAL, [k1, k2, k5]), 2)
    ensures Placed(LayoutTrees.Container(0, D.Box([0, 0], [135, 65]), HORIZONTAL, [k1, k2, k5]), [0, 0])
         == [(0, D.Box([0, 0], [135, 65])), (5, D.Box([75, 0], [60, 60])),
             (2, D.Box([50, 0], [25, 65])), (4, D.Box([50, 30], [25, 35])),
             (3, D.Box([50, 0], [20, 30])), (1, D.Box([0, 0], [50, 50]))]
  {
    NestedArithmetic();
    ColumnPlaced(k2);
    var kids := [k1, k2, k5];
    assert kids[..2] == [k1, k2] && kids[..2][..1] == [k1] && [k1][..0] == [];
    assert SizesOf([k1]) == [[50, 50]];
    assert SizesOf([k1, k2]) == [[50, 50], [25, 65]];
    assert SizesOf(kids) == [[50, 50], [25, 65], [60, 60]];
    assert ArrangedAll([k1][..0], 2) && Arranged(k1, 2);
    assert ArrangedAll([k1], 2) && StackedAt([k1], HORIZONTAL, 2);
    assert ArrangedAll([k1, k2], 2) && StackedAt([k1, k2], HORIZONTAL, 2);
    assert ArrangedAll(kids, 2) && StackedAt(kids, HORIZONTAL, 2);
    assert [0, 0] == D.ZeroOffset(2);
    AddZeroOffset(D.Box([0, 0], [135, 65]));
    AddZeroOffset(k5.bx);
    AddZeroOffset(k1.bx);
    assert PlacedReversed([k1], [0, 0]) == [(1, D.Box([0, 0], [50, 50]))];
    assert PlacedReversed([k1, k2], [0, 0]) == [(2, D.Box([50, 0], [25, 65])), (4, D.Box([50, 30], [25, 35])),
      (3, D.Box([50, 0], [20, 30])), (1, D.Box([0, 0], [50, 50]))];
    assert PlacedReversed(kids, [0, 0]) == [(5, D.Box([75, 0], [60, 60])),
      (2, D.Box([50, 0], [25, 65])), (4, D.Box([50, 30], [25, 35])),
      (3, D.Box([50, 0], [20, 30])), (1, D.Box([0, 0], [50, 50]))];
  }

  /** A vertical layouter records two leaves, one below the other. */
  method FillColumn(column: Layouter<nat>)
    requires column.Valid() && column.inner.rank == 2
    requires column.inner.layoutAxis == VERTICAL && column.inner.kids == []
    modifies column.inner
    ensures column.Valid()
    ensures column.inner.kids == [LayoutTrees.Leaf(3, D.Box([0, 0], [20, 30])), LayoutTrees.Leaf(4, D.Box([0, 30], [25, 35]))]
    ensures column.inner.size == [25, 65]
  {
    NestedArithmetic();
    var p3 := column.Leaf(3, [20, 30]);
    ghost var k3 := LayoutTrees.Leaf(3, D.Box([0, 0], [20, 30]));
    assert SizesOf([k3]) == [[20, 30]];
    var p4 := column.Leaf(4, [25, 35]);
    ghost var k4 := LayoutTrees.Leaf(4, D.Box([0, 30], [25, 35]));
    assert SizesOf([k3, k4]) == [[20, 30], [25, 35]];
  }

  /** Inside a row holding one leaf, a nested vertical layouter records its column and,
      dropped, becomes the row's second child with the size of the column. */
  method NestColumn(root: Layouter<nat>, ghost k1: Layout<nat>) returns (panicked: bool, ghost k2: Layout<nat>)
    requires root.Valid() && root.parent == null && root.inner.rank == 2
    requires root.inner.layoutAxis == HORIZONTAL && root.inner.kids == [k1] && root.inner.offset == [50, 0]
    modifies root.inner
    ensures !panicked && root.Valid() && root.inner.kids == [k1, k2]
    ensures k2 == LayoutTrees.Container(2, D.Box([50, 0], [25, 65]), VERTICAL,
      [LayoutTrees.Leaf(3, D.Box([0, 0], [20, 30])), LayoutTrees.Leaf(4, D.Box([0, 30], [25, 35]))])
  {
    var column := root.Container(2, VERTICAL);
    FillColumn(column);
    panicked := column.Drop();
    k2 := LayoutTrees.Container(2, D.Box([50, 0], [25, 65]), VERTICAL,
      [LayoutTrees.Leaf(3, D.Box([0, 0], [20, 30])), LayoutTrees.Leaf(4, D.Box([0, 30], [25, 35]))]);
  }

  /** A horizontal root records a leaf, a nested column and another leaf. */
  method FillNestedRow(root: Layouter<nat>)
    requires root.Valid() && root.parent == null && root.inner.rank == 2
    requires root.inner.layoutAxis == HORIZONTAL && root.inner.kids == []
    modifies root.inner
    ensures root.Valid()
    ensures root.inner.kids == [LayoutTrees.Leaf(1, D.Box([0, 0], [50, 50])),
      LayoutTrees.Container(2, D.Box([50, 0], [25, 65]), VERTICAL,
        [LayoutTrees.Leaf(3, D.Box([0, 0], [20, 30])), LayoutTrees.Leaf(4, D.Box([0, 30], [25, 35]))]),
      LayoutTrees.Leaf(5, D.Box([75, 0], [60, 60]))]
    ensures root.inner.size == [135, 65]
  {
    NestedArithmetic();
    var p1 := root.Leaf(1, [50, 50]);
    ghost var k1 := LayoutTrees.Leaf(1, D.Box([0, 0], [50, 50]));
    assert SizesOf([k1]) == [[50, 50]];
    var p2, k2 := NestColumn(root, k1);
    assert SizesOf([k1, k2]) == [[50, 50], [25, 65]];
    var p5 := root.Leaf(5, [60, 60]);
    ghost var k5 := LayoutTrees.Leaf(5, D.Box([75, 0], [60, 60]));
    assert SizesOf([k1, k2, k5]) == [[50, 50], [25, 65], [60, 60]];
  }

  /** A leaf, a nested vertical container of two leaves and another leaf in a row: the
      nested layouter borrows the root's trace and, dropped, becomes the root's second
      child with the size of its column. */
  method NestedContainerWithSiblings() returns (panicked: bool, out: seq<(nat, D.Box)>)
    ensures !panicked
    ensures out == [(0, D.Box([0, 0], [135, 65])), (5, D.Box([75, 0], [60, 60])),
                    (2, D.Box([50, 0], [25, 65])), (4, D.Box([50, 30], [25, 35])),
                    (3, D.Box([50, 0], [20, 30])), (1, D.Box([0, 0], [50, 50]))]
  {
    var root := Layouter.Root(0, HORIZONTAL, 2);
    FillNestedRow(root);
    NestedPlaced(root.inner.kids[0], root.inner.kids[1], root.inner.kids[2]);
    assert D.ZeroOffset(2) == [0, 0];
    assert root.Tree() == LayoutTrees.Container(0, D.Box([0, 0], [135, 65]), HORIZONTAL, root.inner.kids);
    panicked, out := root.Place([0, 0]);
  }

  /** A single leaf: the root takes the leaf's size and both sit at the origin. */
  method SingleLeaf() returns (panicked: bool, out: seq<(nat, D.Box)>)
    ensures !panicked
    ensures out == [(0, D.Box([0, 0], [100, 50])), (1, D.Box([0, 0], [100, 50]))]
  {
    var root := Layouter.Root(0, HORIZONTAL, 2);
    assert D.ZeroOffset(2) == [0, 0];
    var p := root.Leaf(1, [100, 50]);
    ghost var k1 := LayoutTrees.Leaf(1, D.Box([0, 0], [100, 50]));
    assert SizesOf([k1]) == [[100, 50]];
    assert SumAt([[100, 50]], 0) == 100 && MaxAt([[100, 50]], 1) == 50;
    SingleLeafPlaced(k1);
    assert root.Tree() == LayoutTrees.Container(0, D.Box([0, 0], [100, 50]), HORIZONTAL, [k1]);
    panicked, out := root.Place([0, 0]);
  }

  /** The root around one leaf is arranged and placed before the leaf, both at the origin. */
  lemma SingleLeafPlaced(k1: Layout<nat>)
    requires k1 == LayoutTrees.Leaf(1, D.Box([0, 0], [100, 50]))
    ensures Arranged(LayoutTrees.Container(0, D.Box([0, 0], [100, 50]), HORIZONTAL, [k1]), 2)
    ensures Placed(LayoutTrees.Container(0, D.Box([0, 0], [100, 50]), HORIZONTAL, [k1]), [0, 0])
         == [(0, D.Box([0, 0], [100, 50])), (1, D.Box([0, 0], [100, 50]))]
  {
    assert [k1][..0] == [];
    assert SizesOf([k1]) == [[100, 50]];
    assert SumAt([[100, 50]], 0) == 100 && MaxAt([[100, 50]], 1) == 50;
    assert Stacked([[100, 50]], HORIZONTAL, 2) == [100, 50];
    assert RunningOffset([], HORIZONTAL, 2) == [0, 0];
    assert ArrangedAll([k1][..0], 2) && Arranged(k1, 2);
    assert ArrangedAll([k1], 2) && StackedAt([k1], HORIZONTAL, 2);
    assert [0, 0] == D.ZeroOffset(2);
    AddZeroOffset(D.Box([0, 0], [100, 50]));
    assert PlacedReversed([k1], [0, 0]) == [(1, D.Box([0, 0], [100, 50]))];
  }

  /** The running offsets and the size of three boxes laid out along the vertical axis. */
  lemma VerticalArithmetic()
    ensures RunningOffset([], VERTICAL, 2) == [0, 0]
    ensures RunningOffset([[100, 50]], VERTICAL, 2) == [0, 50]
    ensures RunningOffset([[100, 50], [200, 30]], VERTICAL, 2) == [0, 80]
    ensures Stacked([[100, 50], [200, 30], [150, 40]], VERTICAL, 2) == [200, 120]
  {
    var sizes := [[100, 50], [200, 30], [150, 40]];
    assert sizes[..2] == [[100, 50], [200, 30]] && sizes[..2][..1] == [[100, 50]];
    assert SumAt([[100, 50]], 1) == 50;
    assert SumAt(sizes, 1) == 120;
    assert MaxAt(sizes, 0) == 200;
  }

  /** Placing the three-leaf column at the origin emits the column, then its leaves last
      first. */
  lemma VerticalPlaced(k1: Layout<nat>, k2: Layout<nat>, k3: Layout<nat>)
    requires k1 == LayoutTrees.Leaf(1, D.Box([0, 0], [100, 50]))
    requires k2 == LayoutTrees.Leaf(2, D.Box([0, 50], [200, 30]))
    requires k3 == LayoutTrees.Leaf(3, D.Box([0, 80], [150, 40]))
    ensures Arranged(LayoutTrees.Container(0, D.Box([0, 0], [200, 120]), VERTICAL, [k1, k2, k3]), 2)
    ensures Placed(LayoutTrees.Container(0, D.Box([0, 0], [200, 120]), VERTICAL, [k1, k2, k3]), [0, 0])
         == [(0, D.Box([0, 0], [200, 120])), (3, D.Box([0, 80], [150, 40])),
             (2, D.Box([0, 50], [200, 30])), (1, D.Box([0, 0], [100, 50]))]
  {
    var kids := [k1, k2, k3];
    assert kids[..2] == [k1, k2] && kids[..2][..1] == [k1] && [k1][..0] == [];
    VerticalArithmetic();
    assert SizesOf([k1]) == [[100, 50]];
    assert SizesOf([k1, k2]) == [[100, 50], [200, 30]];
    assert SizesOf(kids) == [[100, 50], [200, 30], [150, 40]];
    assert ArrangedAll([k1][..0], 2) && Arranged(k1, 2);
    assert ArrangedAll([k1], 2) && StackedAt([k1], VERTICAL, 2);
    assert ArrangedAll([k1, k2], 2) && StackedAt([k1, k2], VERTICAL, 2);
    assert ArrangedAll(kids, 2) && StackedAt(kids, VERTICAL, 2);
    assert [0, 0] == D.ZeroOffset(2);
    AddZeroOffset(D.Box([0, 0], [200, 120]));
    AddZeroOffset(k3.bx);
    AddZeroOffset(k2.bx);
    AddZeroOffset(k1.bx);
    assert PlacedReversed([k1], [0, 0]) == [(1, D.Box([0, 0], [100, 50]))];
    assert PlacedReversed([k1, k2], [0, 0]) == [(2, D.Box([0, 50], [200, 30])), (1, D.Box([0, 0], [100, 50]))];
    assert PlacedReversed(kids, [0, 0]) == [(3, D.Box([0, 80], [150, 40])),
      (2, D.Box([0, 50], [200, 30])), (1, D.Box([0, 0], [100, 50]))];
  }

  /** A vertical root records three leaves one below the other. */
  method FillStack(root: Layouter<nat>)
    requires root.Valid() && root.parent == null && root.inner.rank == 2
    requires root.inner.layoutAxis == VERTICAL && root.inner.kids == []
    modifies root.inner
    ensures root.Valid()
    ensures root.inner.kids == [LayoutTrees.Leaf(1, D.Box([0, 0], [100, 50])),
      LayoutTrees.Leaf(2, D.Box([0, 50], [200, 30])), LayoutTrees.Leaf(3, D.Box([0, 80], [150, 40]))]
    ensures root.inner.size == [200, 120]
  {
    VerticalArithmetic();
    var p1 := root.Leaf(1, [100, 50]);
    ghost var k1 := LayoutTrees.Leaf(1, D.Box([0, 0], [100, 50]));
    assert root.inner.kids == [k1];
    assert SizesOf([k1]) == [[100, 50]];
    assert root.inner.offset == [0, 50];
    var p2 := root.Leaf(2, [200, 30]);
    ghost var k2 := LayoutTrees.Leaf(2, D.Box([0, 50], [200, 30]));
    assert root.inner.kids == [k1, k2];
    assert SizesOf([k1, k2]) == [[100, 50], [200, 30]];
    assert root.inner.offset == [0, 80];
    var p3 := root.Leaf(3, [150, 40]);
    ghost var k3 := LayoutTrees.Leaf(3, D.Box([0, 80], [150, 40]));
    assert SizesOf([k1, k2, k3]) == [[100, 50], [200, 30], [150, 40]];
  }

  /** Three leaves one below the other: the root is as wide as the widest and as high as
      the three, and the leaves come out last recorded first. */
  method VerticalContainer() returns (panicked: bool, out: seq<(nat, D.Box)>)
    ensures !panicked
    ensures out == [(0, D.Box([0, 0], [200, 120])), (3, D.Box([0, 80], [150, 40])),
                    (2, D.Box([0, 50], [200, 30])), (1, D.Box([0, 0], [100, 50]))]
  {
    var root := Layouter.Root(0, VERTICAL, 2);
    FillStack(root);
    VerticalPlaced(root.inner.kids[0], root.inner.kids[1], root.inner.kids[2]);
    assert D.ZeroOffset(2) == [0, 0];
    assert root.Tree() == LayoutTrees.Container(0, D.Box([0, 0], [200, 120]), VERTICAL, root.inner.kids);
    panicked, out := root.Place([0, 0]);
  }

  /** Widths add up along the horizontal axis and the height is the largest. */
  lemma SizeAccumulation()
    ensures Stacked([[10, 50], [20, 30], [30, 40]], HORIZONTAL, 2) == [60, 50]
  {
    var sizes := [[10, 50], [20, 30], [30, 40]];
    assert sizes[..2] == [[10, 50], [20, 30]] && sizes[..2][..1] == [[10, 50]];
    assert SumAt([[10, 50]], 0) == 10 && MaxAt([[10, 50]], 1) == 50;
    assert SumAt(sizes[..2], 0) == 30 && MaxAt(sizes[..2], 1) == 50;
    assert SumAt(sizes, 0) == 60;
    assert MaxAt(sizes, 1) == 50;
  }
}
